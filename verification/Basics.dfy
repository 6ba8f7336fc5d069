/** Small vocabulary shared by every connector model. */
module Basics {

  datatype Option<+T> = None | Some(value: T)

  ghost predicate NoDuplicates<T>(s: seq<T>) {
    forall i, j :: 0 <= i < j < |s| ==> s[i] != s[j]
  }

  function ToSet<T>(s: seq<T>): set<T> {
    set x | x in s
  }

  /** Appending a new element keeps a sequence free of duplicates. */
  lemma NoDuplicatesSnoc<T>(s: seq<T>, x: T)
    requires NoDuplicates(s) && x !in s
    ensures NoDuplicates(s + [x]) && ToSet(s + [x]) == ToSet(s) + {x}
  {
  }

  /** How one message's function invocation ended, as every connector sees it:
      an error from the HTTP step, a response whose body cannot be read, or a body. */
  datatype Invocation =
    | Failed(err: string)
    | Unreadable(err: string)
    | Answered(body: string)
}
