// A cell that is written, cleared or left alone, step after step: its value is
// that of the last write no later step replaced or cleared.
module LastWrite {
  import opened Options

  datatype Change<T> = Put(value: T) | Clear | Keep

  function Applied<T>(v: Option<T>, c: Change<T>): Option<T> {
    match c
    case Put(x) => Some(x)
    case Clear => None
    case Keep => v
  }

  function Value<T>(cs: seq<Change<T>>): Option<T>
    decreases |cs|
  {
    if cs == [] then None else Applied(Value(cs[..|cs| - 1]), cs[|cs| - 1])
  }

  ghost predicate LastPut<T>(cs: seq<Change<T>>, j: nat) {
    j < |cs| && cs[j].Put? && forall k | j < k < |cs| :: cs[k] == Keep
  }

  lemma {:induction false} ValueIsLastPut<T>(cs: seq<Change<T>>)
    ensures Value(cs) == None <==> forall j: nat :: !LastPut(cs, j)
    ensures forall j: nat :: LastPut(cs, j) ==> Value(cs) == Some(cs[j].value)
    decreases |cs|
  {
    if cs != [] {
      var n := |cs| - 1;
      ValueIsLastPut(cs[..n]);
      if cs[n] == Keep {
        forall j: nat ensures LastPut(cs, j) <==> LastPut(cs[..n], j) {
          if LastPut(cs[..n], j) {
            assert forall k | j < k < n :: cs[..n][k] == cs[k];
          }
          if LastPut(cs, j) {
            assert cs[..n][j] == cs[j];
          }
        }
      } else {
        assert cs[n].Put? ==> LastPut(cs, n);
      }
    }
  }
}
