/**
 * The list operations the dashboard handlers build their new state from:
 * `findIndex`, `find`, `filter` by id, `map` of a resize, the splice that
 * inserts a widget, and the array move of a reorder.
 */
module WidgetLists {
  import opened Wrappers
  import opened GridGeometry
  import opened Widgets

  // ---------------------------------------------------------------------------
  // Ids of composed lists

  lemma IdsConcat(a: seq<Widget>, b: seq<Widget>)
    ensures Ids(a + b) == Ids(a) + Ids(b)
  {
  }

  lemma IdsCons(ws: seq<Widget>)
    requires ws != []
    ensures Ids(ws) == [ws[0].id] + Ids(ws[1..])
  {
  }

  /** `ws.findIndex(w => w.id === id)`: the first index holding `id`, or -1. */
  function FindIndex(ws: seq<Widget>, id: string): (r: int)
    ensures -1 <= r < |ws|
    ensures r == -1 <==> id !in Ids(ws)
    ensures 0 <= r ==> ws[r].id == id && forall j :: 0 <= j < r ==> ws[j].id != id
  {
    if ws == [] then -1
    else
      IdsCons(ws);
      if ws[0].id == id then 0
      else
        var k := FindIndex(ws[1..], id);
        if k == -1 then -1 else k + 1
  }

  /** With distinct ids, the index of an entry's id is that entry's index. */
  lemma FindIndexOfEntry(ws: seq<Widget>, i: nat)
    requires Distinct(Ids(ws)) && i < |ws|
    ensures FindIndex(ws, ws[i].id) == i
  {
    assert ws[i].id == Ids(ws)[i];
    var r := FindIndex(ws, ws[i].id);
    assert Ids(ws)[r] == Ids(ws)[i];
  }

  /** `ws.find(w => w.id === id)`: the first widget holding `id`, if any. */
  function Find(ws: seq<Widget>, id: string): (r: Option<Widget>)
    ensures r.None? <==> id !in Ids(ws)
    ensures r.Some? ==> r.value.id == id && r.value == ws[FindIndex(ws, id)]
  {
    var i := FindIndex(ws, id);
    if i == -1 then None else Some(ws[i])
  }

  /** `ws.filter(w => w.id !== id)`. */
  function RemoveId(ws: seq<Widget>, id: string): (r: seq<Widget>)
    ensures forall w :: w in r <==> w in ws && w.id != id
    ensures id !in Ids(r)
    ensures multiset(Ids(r)) == multiset(Ids(ws))[id := 0]
  {
    if ws == [] then []
    else
      IdsCons(ws);
      var rest := RemoveId(ws[1..], id);
      if ws[0].id == id then rest
      else
        IdsCons([ws[0]] + rest);
        assert ([ws[0]] + rest)[1..] == rest;
        [ws[0]] + rest
  }

  /** `filter` keeps the order of what it keeps: filtering a concatenation filters each part. */
  lemma {:induction false} RemoveIdConcat(a: seq<Widget>, b: seq<Widget>, id: string)
    ensures RemoveId(a + b, id) == RemoveId(a, id) + RemoveId(b, id)
  {
    if a != [] {
      assert (a + b)[1..] == a[1..] + b;
      assert (a + b)[0] == a[0];
      RemoveIdConcat(a[1..], b, id);
    } else {
      assert a + b == b;
    }
  }

  /** A single entry survives the filter exactly when its id differs. */
  lemma RemoveIdSingle(w: Widget, id: string)
    ensures RemoveId([w], id) == if w.id == id then [] else [w]
  {
    assert [w][1..] == [];
  }

  /** Filtering out an id no widget has changes nothing. */
  lemma {:induction false} RemoveIdAbsent(ws: seq<Widget>, id: string)
    requires id !in Ids(ws)
    ensures RemoveId(ws, id) == ws
  {
    if ws != [] {
      IdsCons(ws);
      RemoveIdAbsent(ws[1..], id);
    }
  }

  /**
   * With distinct ids, filtering out the id at index `i` removes exactly that
   * entry and keeps the order of all the others.
   */
  lemma {:induction false} RemoveIdUnique(ws: seq<Widget>, id: string, i: nat)
    requires Distinct(Ids(ws)) && i < |ws| && ws[i].id == id
    ensures RemoveId(ws, id) == RemoveAt(ws, i)
  {
    IdsCons(ws);
    DistinctTail(Ids(ws));
    if i == 0 {
      RemoveIdAbsent(ws[1..], id);
      assert RemoveAt(ws, 0) == ws[1..];
    } else {
      assert Ids(ws)[0] != Ids(ws)[i];
      RemoveIdUnique(ws[1..], id, i - 1);
      assert RemoveId(ws, id) == [ws[0]] + RemoveAt(ws[1..], i - 1);
      assert [ws[0]] + RemoveAt(ws[1..], i - 1) == RemoveAt(ws, i);
    }
  }

  /** The tail of a duplicate-free list is duplicate-free and lacks the head. */
  lemma DistinctTail<T>(s: seq<T>)
    requires s != [] && Distinct(s)
    ensures Distinct(s[1..]) && s[0] !in s[1..]
  {
    forall j | 0 <= j < |s| - 1 ensures s[1..][j] != s[0] {
      assert s[j + 1] != s[0];
    }
    forall a, b | 0 <= a < b < |s| - 1 ensures s[1..][a] != s[1..][b] {
      assert s[a + 1] != s[b + 1];
    }
  }

  // ---------------------------------------------------------------------------
  // Resize: `prev.map(w => w.id === id ? { ...w, colSpan, rowSpan } : w)`

  function WithSpans(w: Widget, c: ColumnSpan, r: RowSpan): Widget
  {
    w.(colSpan := c, rowSpan := r)
  }

  /** The dashboard list after resizing the widgets holding `id` to `c` by `r`. */
  function SizeChanged(ws: seq<Widget>, id: string, c: ColumnSpan, r: RowSpan): (out: seq<Widget>)
    ensures |out| == |ws| && Ids(out) == Ids(ws)
    ensures forall i :: 0 <= i < |ws| && ws[i].id == id ==>
      out[i].colSpan == c && out[i].rowSpan == r
    ensures forall i :: 0 <= i < |ws| ==>
      out[i].title == ws[i].title && out[i].widgetType == ws[i].widgetType &&
      out[i].navigateTo == ws[i].navigateTo && out[i].footerText == ws[i].footerText
    ensures forall i :: 0 <= i < |ws| && ws[i].id != id ==> out[i] == ws[i]
  {
    seq(|ws|, i requires 0 <= i < |ws| => if ws[i].id == id then WithSpans(ws[i], c, r) else ws[i])
  }

  /** Resizing an id that is not on the list leaves the list as it is. */
  lemma SizeChangedAbsent(ws: seq<Widget>, id: string, c: ColumnSpan, r: RowSpan)
    requires id !in Ids(ws)
    ensures SizeChanged(ws, id, c, r) == ws
  {
    forall i | 0 <= i < |ws| ensures ws[i].id != id {
      assert Ids(ws)[i] == ws[i].id;
    }
  }

  /** Of two resizes of the same widget the later one wins. */
  lemma SizeChangedLastWins(ws: seq<Widget>, id: string, c1: ColumnSpan, r1: RowSpan, c2: ColumnSpan, r2: RowSpan)
    ensures SizeChanged(SizeChanged(ws, id, c1, r1), id, c2, r2) == SizeChanged(ws, id, c2, r2)
  {
    var once := SizeChanged(ws, id, c1, r1);
    forall i | 0 <= i < |ws| ensures once[i].id == ws[i].id {
      assert Ids(once)[i] == Ids(ws)[i];
    }
  }

  // ---------------------------------------------------------------------------
  // Splice and array move

  /** `copy.splice(i, 0, x)`: `x` is inserted before the entry at `i`. */
  function InsertAt<T>(s: seq<T>, i: nat, x: T): (r: seq<T>)
    requires i <= |s|
    ensures |r| == |s| + 1 && r[i] == x
    ensures forall j :: 0 <= j < i ==> r[j] == s[j]
    ensures forall j :: i < j < |r| ==> r[j] == s[j - 1]
  {
    s[..i] + [x] + s[i..]
  }

  /** A splice adds exactly the inserted element to the multiset. */
  lemma InsertAtMultiset<T>(s: seq<T>, i: nat, x: T)
    requires i <= |s|
    ensures multiset(InsertAt(s, i, x)) == multiset(s) + multiset{x}
  {
    assert s == s[..i] + s[i..];
  }

  /** `copy.splice(i, 1)`: the entry at `i` is taken out. */
  function RemoveAt<T>(s: seq<T>, i: nat): (r: seq<T>)
    requires i < |s|
    ensures |r| == |s| - 1
    ensures forall j :: 0 <= j < i ==> r[j] == s[j]
    ensures forall j :: i <= j < |r| ==> r[j] == s[j + 1]
  {
    s[..i] + s[i + 1..]
  }

  /** Taking an entry out removes exactly one copy of it from the multiset. */
  lemma RemoveAtMultiset<T>(s: seq<T>, i: nat)
    requires i < |s|
    ensures multiset(RemoveAt(s, i)) == multiset(s) - multiset{s[i]}
  {
    assert s == s[..i] + [s[i]] + s[i + 1..];
  }

  /** Taking out what was just inserted gives the list back. */
  lemma RemoveInserted<T>(s: seq<T>, i: nat, x: T)
    requires i <= |s|
    ensures RemoveAt(InsertAt(s, i, x), i) == s
  {
  }

  /** Inserting what was just taken out, at the same place, gives the list back. */
  lemma InsertRemoved<T>(s: seq<T>, i: nat)
    requires i < |s|
    ensures InsertAt(RemoveAt(s, i), i, s[i]) == s
  {
  }

  /** dnd-kit's `arrayMove(s, from, to)`: take the entry at `from` out, then insert it at `to`. */
  function ArrayMove<T>(s: seq<T>, from: nat, to: nat): (r: seq<T>)
    requires from < |s| && to < |s|
    ensures |r| == |s| && r[to] == s[from]
    ensures multiset(r) == multiset(s)
    ensures RemoveAt(r, to) == RemoveAt(s, from)
  {
    var rest := RemoveAt(s, from);
    RemoveInserted(rest, to, s[from]);
    RemoveAtMultiset(s, from);
    InsertAtMultiset(rest, to, s[from]);
    InsertAt(rest, to, s[from])
  }

  /** Moving an entry onto its own place changes nothing. */
  lemma ArrayMoveSame<T>(s: seq<T>, i: nat)
    requires i < |s|
    ensures ArrayMove(s, i, i) == s
  {
    InsertRemoved(s, i);
  }

  /** The ids after a splice are the ids spliced in the same way. */
  lemma IdsInsertAt(ws: seq<Widget>, i: nat, w: Widget)
    requires i <= |ws|
    ensures Ids(InsertAt(ws, i, w)) == InsertAt(Ids(ws), i, w.id)
  {
  }

  lemma IdsRemoveAt(ws: seq<Widget>, i: nat)
    requires i < |ws|
    ensures Ids(RemoveAt(ws, i)) == RemoveAt(Ids(ws), i)
  {
  }

  /** The ids after an array move are the ids moved in the same way. */
  lemma IdsArrayMove(ws: seq<Widget>, from: nat, to: nat)
    requires from < |ws| && to < |ws|
    ensures Ids(ArrayMove(ws, from, to)) == ArrayMove(Ids(ws), from, to)
  {
    IdsRemoveAt(ws, from);
    IdsInsertAt(RemoveAt(ws, from), to, ws[from]);
  }

  // ---------------------------------------------------------------------------
  // Distinctness and id counts

  /** A duplicate-free list counts each of its elements once. */
  lemma CountedOnce<T>(s: seq<T>, x: T)
    requires Distinct(s) && x in s
    ensures multiset(s)[x] == 1
  {
    DistinctIffSingleCounts(s);
  }

  /** The two halves of a duplicate-free concatenation are duplicate-free and share nothing. */
  lemma DistinctSplit<T>(a: seq<T>, b: seq<T>)
    requires Distinct(a + b)
    ensures Distinct(a) && Distinct(b)
    ensures forall x :: x in a ==> x !in b
  {
    forall i, j | 0 <= i < j < |a| ensures a[i] != a[j] {
      assert (a + b)[i] != (a + b)[j];
    }
    forall i, j | 0 <= i < j < |b| ensures b[i] != b[j] {
      assert (a + b)[|a| + i] != (a + b)[|a| + j];
    }
    forall i, j | 0 <= i < |a| && 0 <= j < |b| ensures a[i] != b[j] {
      assert (a + b)[i] != (a + b)[|a| + j];
    }
  }

  /** A list is duplicate-free exactly when no element is counted twice. */
  lemma {:induction false} DistinctIffSingleCounts<T>(s: seq<T>)
    ensures Distinct(s) <==> forall x :: multiset(s)[x] <= 1
  {
    if s != [] {
      var t := s[1..];
      DistinctIffSingleCounts(t);
      assert s == [s[0]] + t;
      assert multiset(s) == multiset{s[0]} + multiset(t);
      if Distinct(s) {
        DistinctTail(s);
      } else {
        var a, b :| 0 <= a < b < |s| && s[a] == s[b];
        if a == 0 {
          assert s[b] in t;
          assert multiset(s)[s[0]] >= 2;
        } else {
          assert !Distinct(t) by {
            assert t[a - 1] == t[b - 1];
          }
          var x :| multiset(t)[x] > 1;
          assert multiset(s)[x] > 1;
        }
      }
    }
  }

  /** Being duplicate-free depends only on the multiset of elements. */
  lemma DistinctPermutation<T>(s: seq<T>, t: seq<T>)
    requires multiset(s) == multiset(t) && Distinct(s)
    ensures Distinct(t)
  {
    DistinctIffSingleCounts(s);
    DistinctIffSingleCounts(t);
  }
}
