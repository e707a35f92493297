/**
 * DatabaseJoinPath: a growable list of joins with a copying clone and an any-nullable test.
 */
module JoinPaths {
  import opened Schema
  import opened Text

  /** Some join of the path has a nullable foreign-key column. */
  predicate AnyNullable(js: seq<Join>) {
    exists i :: 0 <= i < |js| && js[i].IsNullable()
  }

  /** The list rendering of the joins: "[j1, j2, ...]". */
  function JoinsString(js: seq<Join>): string {
    "[" + JoinWith(", ", JoinStrings(js)) + "]"
  }

  class JoinPath {
    var joins: seq<Join>

    constructor()
      ensures joins == []
    {
      joins := [];
    }

    method Add(j: Join)
      modifies this
      ensures joins == old(joins) + [j]
    {
      joins := joins + [j];
    }

    /** A new path holding the same joins in the same order. */
    method Clone() returns (c: JoinPath)
      ensures fresh(c) && c.joins == joins
    {
      c := new JoinPath();
      var i := 0;
      while i < |joins|
        invariant 0 <= i <= |joins|
        invariant fresh(c) && c.joins == joins[..i]
      {
        c.Add(joins[i]);
        i := i + 1;
      }
    }

    /** True exactly when some join of the path is nullable; false for the empty path. */
    method IsNullable() returns (nullable: bool)
      ensures nullable <==> AnyNullable(joins)
    {
      nullable := false;
      var i := 0;
      while i < |joins|
        invariant 0 <= i <= |joins|
        invariant nullable <==> AnyNullable(joins[..i])
      {
        assert joins[..i + 1] == joins[..i] + [joins[i]];
        nullable := nullable || joins[i].IsNullable();
        i := i + 1;
      }
      assert joins[..i] == joins;
    }

    function ToString(): string
      reads this
    {
      JoinsString(joins)
    }
  }

  function JoinStrings(js: seq<Join>): (r: seq<string>)
    ensures |r| == |js| && forall i :: 0 <= i < |js| ==> r[i] == js[i].ToString()
  {
    seq(|js|, i requires 0 <= i < |js| => js[i].ToString())
  }

  /**
   * The list rendering is bracketed, "[]" for no join; appending a join puts it before the closing
   * bracket, after ", " unless the path was empty.
   */
  lemma JoinsStringShape(js: seq<Join>, j: Join)
    ensures var s := JoinsString(js); |s| >= 2 && s[0] == '[' && s[|s| - 1] == ']'
    ensures JoinsString([]) == "[]"
    ensures var s := JoinsString(js);
      JoinsString(js + [j]) ==
        if js == [] then "[" + j.ToString() + "]" else s[..|s| - 1] + ", " + j.ToString() + "]"
  {
    var items, x := JoinStrings(js), j.ToString();
    var longer := JoinStrings(js + [j]);
    JoinStringsSnoc(js, j);
    var inner := JoinWith(", ", items);
    assert JoinsString(js) == "[" + inner + "]";
    assert JoinsString(js + [j]) == "[" + JoinWith(", ", longer) + "]";
    Bracketed(inner);
    if js == [] {
      assert longer == [x];
    } else {
      JoinWithSnoc(", ", items, x);
      assert JoinWith(", ", longer) == inner + ", " + x;
    }
  }

  lemma JoinStringsSnoc(js: seq<Join>, j: Join)
    ensures JoinStrings(js + [j]) == JoinStrings(js) + [j.ToString()]
  {
    var a, b := JoinStrings(js + [j]), JoinStrings(js) + [j.ToString()];
    forall i | 0 <= i < |a|
      ensures a[i] == b[i]
    {
      if i < |js| {
        assert (js + [j])[i] == js[i];
      }
    }
  }

  /** A bracketed string without its closing bracket. */
  lemma Bracketed(a: string)
    ensures var s := "[" + a + "]"; |s| >= 2 && s[0] == '[' && s[|s| - 1] == ']' && s[..|s| - 1] == "[" + a
  {
  }

  /** The empty path is not nullable; appending a join makes it nullable iff either part is. */
  lemma AnyNullableSnoc(js: seq<Join>, j: Join)
    ensures !AnyNullable([])
    ensures AnyNullable(js + [j]) <==> AnyNullable(js) || j.IsNullable()
  {
    var s := js + [j];
    if AnyNullable(js) {
      var i :| 0 <= i < |js| && js[i].IsNullable();
      assert s[i] == js[i];
    }
    if j.IsNullable() {
      assert s[|js|] == j;
    }
    if AnyNullable(s) {
      var i :| 0 <= i < |s| && s[i].IsNullable();
      if i < |js| {
        assert s[i] == js[i];
      }
    }
  }

  /** A clone answers isNullable like the original, and later changes to it leave the original alone. */
  method CloneIsIndependent(p: JoinPath, j: Join) returns (c: JoinPath, a: bool, b: bool)
    ensures fresh(c) && p.joins == old(p.joins) && c.joins == p.joins + [j]
    ensures a == b
  {
    c := p.Clone();
    a := p.IsNullable();
    b := c.IsNullable();
    c.Add(j);
  }
}
