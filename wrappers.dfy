/** Option, how a command-line script ends, and the flattening of a sequence of sequences, shared by every module. */
module Wrappers {

  datatype Option<+T> = None | Some(value: T)

  /** How a script ends: `exit(code)`, an uncaught exception, or reaching its end (status 0). */
  datatype Ending = Exit(code: int) | Crashed(error: string) | Finished

  /** The concatenation of all the sequences in `ss`, in order. */
  function Flatten<T>(ss: seq<seq<T>>): seq<T>
  {
    if ss == [] then [] else Flatten(ss[..|ss| - 1]) + ss[|ss| - 1]
  }

  lemma FlattenSnoc<T>(ss: seq<seq<T>>, s: seq<T>)
    ensures Flatten(ss + [s]) == Flatten(ss) + s
  {
    assert (ss + [s])[..|ss|] == ss;
  }

  lemma ConcatAssoc<T>(a: seq<T>, b: seq<T>, c: seq<T>)
    ensures a + b + c == a + (b + c)
  {
  }
}
