/** What several modules need of sequences and optional values. */
module Collections {

  datatype Option<T> = None | Some(value: T)

  predicate NoDup<T(==)>(s: seq<T>) {
    forall i, j | 0 <= i < j < |s| :: s[i] != s[j]
  }

  function Elems<T>(s: seq<T>): set<T> {
    set x | x in s
  }

  lemma AppendFresh<T>(s: seq<T>, x: T)
    ensures Elems(s + [x]) == Elems(s) + {x}
    ensures NoDup(s) && x !in s ==> NoDup(s + [x])
  {
    var t := s + [x];
    forall y | y in Elems(s) + {x} ensures y in t {
      if y != x {
        var i :| 0 <= i < |s| && s[i] == y;
        assert t[i] == y;
      } else {
        assert t[|s|] == x;
      }
    }
  }
}
