/** The toast queue of lib/toast.tsx: `push` appends one toast with defaulted
    options, and the timer callback removes toasts by id. When the timer
    fires is not modelled, only the removal it performs; the random id is an
    input. */
module Toasts {
  import opened Base

  datatype ToastKind = SuccessToast | ErrorToast | InfoToast

  /** The optional second argument of `push`. */
  datatype ToastOptions = ToastOptions(kind: Option<ToastKind>, duration: Option<int>)

  datatype Toast = Toast(id: string, message: string, kind: ToastKind, duration: int)

  /** The toast `push` builds: `type: opts.type || 'info'`,
      `duration: opts.duration || 3000` (so a zero duration also becomes 3000). */
  function MakeToast(id: string, message: string, opts: ToastOptions): (t: Toast)
    ensures t.id == id && t.message == message
    ensures t.kind == InfoToast <==> opts.kind.None? || opts.kind.value == InfoToast
    ensures opts.kind.Some? ==> t.kind == opts.kind.value
    ensures t.duration == 3000 <==> opts.duration.None? || opts.duration.value in {0, 3000}
    ensures t.duration != 0
    ensures opts.duration.Some? && opts.duration.value != 0 ==> t.duration == opts.duration.value
  {
    Toast(id, message,
          if opts.kind.Some? then opts.kind.value else InfoToast,
          if opts.duration.Some? && opts.duration.value != 0 then opts.duration.value else 3000)
  }

  /** `prev.filter((t) => t.id !== id)` */
  function Without(ts: seq<Toast>, id: string): seq<Toast> {
    if ts == [] then []
    else Without(ts[..|ts| - 1], id) + (if ts[|ts| - 1].id != id then [ts[|ts| - 1]] else [])
  }

  /** Removal keeps exactly the toasts with another id. */
  lemma {:induction false} WithoutMembers(ts: seq<Toast>, id: string)
    ensures forall t :: t in Without(ts, id) <==> t in ts && t.id != id
  {
    if ts != [] {
      WithoutMembers(ts[..|ts| - 1], id);
      assert ts == ts[..|ts| - 1] + [ts[|ts| - 1]];
    }
  }

  /** Removal distributes over concatenation, so the toasts kept stay in their order. */
  lemma {:induction false} WithoutAppend(a: seq<Toast>, b: seq<Toast>, id: string)
    ensures Without(a + b, id) == Without(a, id) + Without(b, id)
  {
    if b != [] {
      var last := b[|b| - 1];
      assert (a + b)[..|a + b| - 1] == a + b[..|b| - 1];
      WithoutAppend(a, b[..|b| - 1], id);
    } else {
      assert a + b == a;
    }
  }

  /** Removing an id no toast has changes nothing. */
  lemma {:induction false} WithoutAbsent(ts: seq<Toast>, id: string)
    requires forall t :: t in ts ==> t.id != id
    ensures Without(ts, id) == ts
  {
    if ts != [] {
      WithoutAbsent(ts[..|ts| - 1], id);
      assert ts[|ts| - 1] in ts;
    }
  }

  /** Removing the id of a toast just pushed with a fresh id gives back the
      list as it was before the push. */
  lemma PushThenRemove(ts: seq<Toast>, id: string, message: string, opts: ToastOptions)
    requires forall t :: t in ts ==> t.id != id
    ensures Without(ts + [MakeToast(id, message, opts)], id) == ts
  {
    WithoutAppend(ts, [MakeToast(id, message, opts)], id);
    WithoutAbsent(ts, id);
    assert [MakeToast(id, message, opts)][..0] == [];
  }

  /** The provider's `toasts` state. */
  class ToastProvider {
    var toasts: seq<Toast>

    /** `useState<Toast[]>([])` */
    constructor ()
      ensures toasts == []
    {
      toasts := [];
    }

    /** `push(message, opts)` with the id it draws. */
    method Push(message: string, opts: ToastOptions, id: string)
      modifies this
      ensures toasts == old(toasts) + [MakeToast(id, message, opts)]
    {
      toasts := toasts + [MakeToast(id, message, opts)];
    }

    /** The timer callback: `setToasts((prev) => prev.filter((t) => t.id !== id))`. */
    method Remove(id: string)
      modifies this
      ensures toasts == Without(old(toasts), id)
    {
      var kept: seq<Toast> := [];
      var i := 0;
      while i < |toasts|
        invariant 0 <= i <= |toasts|
        invariant kept == Without(toasts[..i], id)
      {
        assert toasts[..i + 1][..i] == toasts[..i];
        if toasts[i].id != id {
          kept := kept + [toasts[i]];
        }
        i := i + 1;
      }
      assert toasts[..|toasts|] == toasts;
      toasts := kept;
    }
  }

  /** `useToast()`: the `push` function of the provider, or an error outside
      it. The provider itself is returned; its `Push` method stands for `push`. */
  function UseToast(ctx: Option<ToastProvider>): (r: Result<ToastProvider, string>)
    ensures r.Err? <==> ctx.None?
    ensures r.Err? ==> r.error == "useToast must be inside ToastProvider"
    ensures r.Ok? ==> r.value == ctx.value
  {
    UseContext(ctx, "useToast must be inside ToastProvider")
  }

  /** `useToasts()`: the provider's list, or an error outside it. */
  function UseToasts(ctx: Option<ToastProvider>): (r: Result<seq<Toast>, string>)
    reads if ctx.Some? then {ctx.value} else {}
    ensures r.Err? <==> ctx.None?
    ensures r.Err? ==> r.error == "useToasts must be inside ToastProvider"
    ensures r.Ok? ==> r.value == ctx.value.toasts
  {
    match ctx
    case None => Err("useToasts must be inside ToastProvider")
    case Some(p) => Ok(p.toasts)
  }
}
