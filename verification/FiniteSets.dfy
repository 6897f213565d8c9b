/** The least element of a finite set of integers. */
module FiniteSets {
  predicate IsLeast(m: int, s: set<int>) {
    m in s && forall x | x in s :: m <= x
  }

  lemma HasElement<T(!new)>(s: set<T>)
    ensures s != {} ==> exists x :: x in s
  {
    if !exists x :: x in s {
      assert forall x :: x !in s;
      assert s == {};
    }
  }

  lemma HasInteger(s: set<int>)
    ensures s != {} ==> exists x :: x in s
  {
    if !exists x :: x in s {
      assert s == {};
    }
  }

  lemma {:induction false} HasLeast(s: set<int>)
    requires s != {}
    ensures exists m :: IsLeast(m, s)
  {
    HasInteger(s);
    var x :| x in s;
    var rest := s - {x};
    if rest == {} {
      assert s == {x};
      assert IsLeast(x, s);
    } else {
      HasLeast(rest);
      var m :| IsLeast(m, rest);
      assert s == rest + {x};
      assert IsLeast(if x < m then x else m, s);
    }
  }

  /** The least element: where a loop in ascending order starts. */
  function Least(s: set<int>): (m: int)
    requires s != {}
    ensures IsLeast(m, s)
  {
    HasLeast(s);
    var m :| IsLeast(m, s);
    m
  }
}
