/** Sorted enumerations of a set of names. */
module Ordering {
  import opened Bytes

  ghost predicate Sorted(s: seq<Blob>) {
    forall i, j | 0 <= i < j < |s| :: Less(s[i], s[j])
  }

  /** Inserts a name into a sorted sequence that lacks it. */
  function Insert(s: seq<Blob>, name: Blob): (r: seq<Blob>)
    ensures |r| == |s| + 1
    decreases |s|
  {
    if s == [] then [name]
    else if Less(name, s[0]) then [name] + s
    else [s[0]] + Insert(s[1..], name)
  }

  function Elements(s: seq<Blob>): set<Blob> {
    set x | x in s
  }

  lemma {:induction false} InsertElements(s: seq<Blob>, name: Blob)
    ensures Elements(Insert(s, name)) == Elements(s) + {name}
    decreases |s|
  {
    if s != [] && !Less(name, s[0]) {
      InsertElements(s[1..], name);
      assert s == [s[0]] + s[1..];
      assert Elements(s) == {s[0]} + Elements(s[1..]);
      assert Elements([s[0]] + Insert(s[1..], name)) == {s[0]} + Elements(Insert(s[1..], name));
    }
  }

  lemma {:induction false} InsertSorted(s: seq<Blob>, name: Blob)
    requires Sorted(s) && name !in s
    ensures Sorted(Insert(s, name))
    decreases |s|
  {
    if s != [] {
      if Less(name, s[0]) {
        forall j | 0 <= j < |s|
          ensures Less(name, s[j])
        {
          if j > 0 {
            LessTransitive(name, s[0], s[j]);
          }
        }
      } else {
        LessTotal(name, s[0]);
        InsertSorted(s[1..], name);
        InsertElements(s[1..], name);
        var rest := Insert(s[1..], name);
        forall j | 0 <= j < |rest|
          ensures Less(s[0], rest[j])
        {
          assert rest[j] in Elements(rest);
          if rest[j] != name {
            assert rest[j] in s[1..];
          }
        }
      }
    }
  }

  /** The names of a set in order. */
  ghost function InOrder(names: set<Blob>): (s: seq<Blob>)
    ensures Sorted(s) && Elements(s) == names && |s| == |names|
    decreases names
  {
    if names == {} then [] else
    var name :| name in names;
    var rest := InOrder(names - {name});
    assert name !in rest by {
      assert name !in Elements(rest);
    }
    InsertSorted(rest, name);
    InsertElements(rest, name);
    Insert(rest, name)
  }

  /** There is only one such sequence. */
  lemma {:induction false} OrderUnique(s: seq<Blob>, t: seq<Blob>)
    requires Sorted(s) && Sorted(t) && Elements(s) == Elements(t)
    ensures s == t
    decreases |s|
  {
    if s == [] {
      assert forall x | x in t :: x in Elements(t);
      assert forall i | 0 <= i < |t| :: t[i] !in t;
    } else {
      assert s[0] in Elements(s) && t != [] by {
        assert s[0] in Elements(t);
      }
      FirstIsLeast(s, t);
      TailElements(s);
      TailElements(t);
      assert Elements(s[1..]) == Elements(t[1..]);
      OrderUnique(s[1..], t[1..]);
      assert s == [s[0]] + s[1..] && t == [t[0]] + t[1..];
    }
  }

  lemma {:induction false} FirstIsLeast(s: seq<Blob>, t: seq<Blob>)
    requires s != [] && t != [] && Sorted(s) && Sorted(t) && Elements(s) == Elements(t)
    ensures s[0] == t[0]
  {
    assert s[0] in Elements(t) && t[0] in Elements(s);
    var i :| 0 <= i < |t| && t[i] == s[0];
    var j :| 0 <= j < |s| && s[j] == t[0];
    if i > 0 && j > 0 {
      LessTotal(s[0], t[0]);
    }
  }

  lemma {:induction false} TailElements(s: seq<Blob>)
    requires s != [] && Sorted(s)
    ensures Elements(s[1..]) == Elements(s) - {s[0]}
  {
    forall i | 0 < i < |s|
      ensures s[i] != s[0]
    {
      LessTotal(s[0], s[i]);
    }
    assert s == [s[0]] + s[1..];
  }

  lemma {:induction false} SortedDistinct(s: seq<Blob>, i: nat, j: nat)
    requires Sorted(s) && i < j < |s|
    ensures s[i] != s[j]
  {
    LessTotal(s[i], s[j]);
  }
}
