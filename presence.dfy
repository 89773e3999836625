/** Presence tests over optional arguments, as in src/utils.py. */
module Presence {
  import opened Wrappers

  /** `any_is_none(*args)`: at least one argument is absent. */
  function AnyIsNone<T>(args: seq<Option<T>>): (r: bool)
    ensures r <==> exists i :: 0 <= i < |args| && args[i].None?
  {
    if args == [] then false
    else
      assert forall i :: 0 < i < |args| ==> args[i] == args[1..][i - 1];
      args[0].None? || AnyIsNone(args[1..])
  }

  /** `any_isnt_none(*args)`: at least one argument is present. */
  function AnyIsntNone<T>(args: seq<Option<T>>): (r: bool)
    ensures r <==> exists i :: 0 <= i < |args| && args[i].Some?
  {
    if args == [] then false
    else
      assert forall i :: 0 < i < |args| ==> args[i] == args[1..][i - 1];
      args[0].Some? || AnyIsntNone(args[1..])
  }

  /** `all_arent_none(*args)`: the negation of `any_is_none`, i.e. every argument is present. */
  function AllArentNone<T>(args: seq<Option<T>>): (r: bool)
    ensures r <==> forall i :: 0 <= i < |args| ==> args[i].Some?
    ensures r == !AnyIsNone(args)
  {
    !AnyIsNone(args)
  }

  /** With no arguments nothing is present and, vacuously, everything is. */
  lemma EmptyArguments<T>()
    ensures !AnyIsNone<T>([]) && !AnyIsntNone<T>([]) && AllArentNone<T>([])
  {
  }

  /** For a non-empty group "complete" implies "present": the geo check never sees a complete but absent group. */
  lemma CompleteImpliesPresent<T>(args: seq<Option<T>>)
    requires |args| > 0 && AllArentNone(args)
    ensures AnyIsntNone(args)
  {
    assert args[0].Some?;
  }
}
