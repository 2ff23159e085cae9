/** Shared vocabulary of the application: optional values, results,
    the two account roles, and the few JavaScript string behaviours the
    handlers rely on (prefix tests, truthiness of optional strings, trim). */
module Base {

  datatype Option<+T> = None | Some(value: T)

  datatype Result<+T, +E> = Ok(value: T) | Err(error: E)

  /** The `Role` enumeration of the user table. */
  datatype Role = Admin | Member

  /** A client-side navigation through the router: `router.push` or `router.replace`. */
  datatype Navigation = Push(path: string) | Replace(path: string)

  /** Opaque timestamp (milliseconds); JavaScript `Date` values are not interpreted. */
  type Date = int

  /** `s.startsWith(prefix)` */
  predicate StartsWith(s: string, prefix: string) {
    |prefix| <= |s| && s[..|prefix|] == prefix
  }

  /** JavaScript truthiness of a value that is a string, `null` or `undefined`:
      absent values and the empty string are falsy. */
  predicate Truthy(s: Option<string>) {
    s.Some? && s.value != ""
  }

  /** `a ?? b` on optional strings: `b` is used only when `a` is null or undefined. */
  function Coalesce(a: Option<string>, b: Option<string>): (r: Option<string>)
    ensures a.Some? ==> r == a
    ensures a.None? ==> r == b
  {
    if a.Some? then a else b
  }

  /** White space removed by `String.prototype.trim` (the ASCII and Latin-1
      members and the line/paragraph separators and byte-order mark). */
  const WhiteSpace: seq<char> :=
    [' ', '\t', '\n', '\r', '\U{000B}', '\U{000C}', '\U{00A0}', '\U{FEFF}', '\U{2028}', '\U{2029}']

  predicate IsSpace(c: char) {
    c in WhiteSpace
  }

  predicate AllSpace(s: string) {
    forall i :: 0 <= i < |s| ==> IsSpace(s[i])
  }

  /** The index of the first non-space of `s` at or after `i`. */
  function SkipSpaces(s: string, i: nat): (k: nat)
    requires i <= |s|
    ensures i <= k <= |s|
    ensures forall m :: i <= m < k ==> IsSpace(s[m])
    ensures k < |s| ==> !IsSpace(s[k])
    decreases |s| - i
  {
    if i < |s| && IsSpace(s[i]) then SkipSpaces(s, i + 1) else i
  }

  /** The index just past the last non-space of `s` before `j`, and not
      below `lo`. */
  function SkipSpacesBack(s: string, lo: nat, j: nat): (k: nat)
    requires lo <= j <= |s|
    ensures lo <= k <= j
    ensures forall m :: k <= m < j ==> IsSpace(s[m])
    ensures k > lo ==> !IsSpace(s[k - 1])
    decreases j
  {
    if j > lo && IsSpace(s[j - 1]) then SkipSpacesBack(s, lo, j - 1) else j
  }

  /** `s.trim()`: the infix of `s` left when the white space at both ends
      is cut, which neither starts nor ends with white space. */
  function Trim(s: string): (r: string)
    ensures var lo := SkipSpaces(s, 0);
            && lo + |r| <= |s| && r == s[lo..lo + |r|]
            && (forall m :: 0 <= m < lo ==> IsSpace(s[m]))
            && (forall m :: lo + |r| <= m < |s| ==> IsSpace(s[m]))
    ensures r != [] ==> !IsSpace(r[0]) && !IsSpace(r[|r| - 1])
  {
    var lo := SkipSpaces(s, 0);
    s[lo..SkipSpacesBack(s, lo, |s|)]
  }

  /** A string is blank exactly when trimming it leaves nothing. */
  lemma TrimEmptyIffBlank(s: string)
    ensures Trim(s) == "" <==> AllSpace(s)
  {
  }

  /** Trimming twice is trimming once. */
  lemma TrimIdempotent(s: string)
    ensures Trim(Trim(s)) == Trim(s)
  {
    var r := Trim(s);
    assert SkipSpaces(r, 0) == 0;
    assert SkipSpacesBack(r, 0, |r|) == |r|;
    assert r[0..|r|] == r;
  }

  /** `s.split('@')[0]`: the part of `s` before its first `@`, or all of `s`. */
  function LocalPart(s: string): (r: string)
    ensures |r| <= |s| && r == s[..|r|]
    ensures '@' !in r
    ensures |r| < |s| ==> s[|r|] == '@'
  {
    if s == [] || s[0] == '@' then [] else [s[0]] + LocalPart(s[1..])
  }

  /** The local part of `local@domain` is `local` whenever `local` holds no `@`. */
  lemma {:induction false} LocalPartOfAddress(local: string, domain: string)
    requires '@' !in local
    ensures LocalPart(local + "@" + domain) == local
  {
    if local != [] {
      assert (local + "@" + domain)[1..] == local[1..] + "@" + domain;
      LocalPartOfAddress(local[1..], domain);
    }
  }

  /** The `useContext` guard shared by `useAuth`, `useToast` and `useToasts`:
      outside its provider the hook throws with the given message. */
  function UseContext<T>(ctx: Option<T>, message: string): (r: Result<T, string>)
    ensures r.Err? <==> ctx.None?
    ensures r.Err? ==> r.error == message
    ensures r.Ok? ==> r.value == ctx.value
  {
    match ctx
    case None => Err(message)
    case Some(v) => Ok(v)
  }
}
