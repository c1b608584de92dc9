/** Facts about finite sets used by several models. */
module FiniteSets {

  lemma Inhabited(ids: set<int>)
    requires ids != {}
    ensures exists x :: x in ids
  {
    if !exists x :: x in ids {
      assert false;
    }
  }

  lemma Greatest(ids: set<int>) returns (m: int)
    requires ids != {}
    ensures m in ids && forall x :: x in ids ==> x <= m
  {
    Inhabited(ids);
    m :| m in ids;
    var rest := ids - {m};
    if rest != {} {
      var n := Greatest(rest);
      assert forall x :: x in ids ==> x in rest || x == m;
      if n > m {
        m := n;
      }
    } else {
      assert forall x :: x in ids ==> x in rest || x == m;
    }
  }
}
