/** The order in which a zone's records are written, and why it is unique. */
module RecordOrder {
  import opened Sequences
  import opened Dns

  function NameKey(r: Record): string {
    Lower(r.name)
  }

  lemma RecordLeTotal(r: Record, s: Record)
    ensures RecordLe(r, s) || RecordLe(s, r)
    ensures RecordLe(r, s) && RecordLe(s, r) ==> NameKey(r) == NameKey(s)
  {
    hide StringLe, Lower;
    StringLeTotal(Lower(r.name), Lower(s.name));
    StringLeTotal(r.kind, s.kind);
    StringLeTotal(r.value, s.value);
  }

  lemma RecordLeTransitive(r: Record, s: Record, t: Record)
    requires RecordLe(r, s) && RecordLe(s, t)
    ensures RecordLe(r, t)
  {
    hide StringLe, Lower;
    var x, y, z := Lower(r.name), Lower(s.name), Lower(t.name);
    var k, l, m := r.kind, s.kind, t.kind;
    if x != y && y != z {
      StringLeTransitive(x, y, z);
      StringLeTotal(x, y);
    } else if x == y == z {
      if k != l && l != m {
        StringLeTransitive(k, l, m);
        StringLeTotal(k, l);
      } else if k == l == m {
        StringLeTransitive(r.value, s.value, t.value);
      }
    }
  }

  /** Inserting into a sorted list. */
  lemma {:induction false} InsertSorts(s: seq<Record>, r: Record)
    requires Sorted(s)
    ensures Sorted(InsertRecord(s, r)) && multiset(InsertRecord(s, r)) == multiset(s) + multiset{r}
  {
    hide RecordLe;
    if s != [] {
      var prefix, last := s[..|s| - 1], s[|s| - 1];
      assert s == prefix + [last];
      RecordLeTotal(last, r);
      if !RecordLe(last, r) {
        InsertSorts(prefix, r);
        var inner := InsertRecord(prefix, r);
        forall x | x in inner
          ensures RecordLe(x, last)
        {
          assert x in multiset(inner);
          if x != r {
            assert x in prefix;
          }
        }
        SortedSnoc(inner, last);
      } else {
        forall x | x in s
          ensures RecordLe(x, r)
        {
          var i :| 0 <= i < |s| && s[i] == x;
          if i < |s| - 1 {
            assert RecordLe(s[i], s[|s| - 1]);
            RecordLeTransitive(x, last, r);
          }
        }
        SortedSnoc(s, r);
      }
    }
  }

  lemma SortedSnoc(s: seq<Record>, r: Record)
    requires Sorted(s) && forall x | x in s :: RecordLe(x, r)
    ensures Sorted(s + [r])
  {
    hide RecordLe;
    var t := s + [r];
    forall i, j | 0 <= i < j < |t|
      ensures RecordLe(t[i], t[j])
    {
      assert t[i] == s[i] && s[i] in s;
    }
  }

  lemma {:induction false} SortSorts(s: seq<Record>)
    ensures Sorted(SortRecords(s)) && multiset(SortRecords(s)) == multiset(s)
  {
    hide RecordLe, InsertRecord;
    if s != [] {
      SortSorts(s[..|s| - 1]);
      InsertSorts(SortRecords(s[..|s| - 1]), s[|s| - 1]);
      assert s == s[..|s| - 1] + [s[|s| - 1]];
    }
  }

  /** With distinct names there is only one sorted list of the same records. */
  lemma {:induction false} SortedIsUnique(s: seq<Record>, t: seq<Record>)
    requires Sorted(s) && Sorted(t) && multiset(s) == multiset(t) && DistinctBy(s, NameKey)
    ensures s == t
    decreases |s|
  {
    hide RecordLe, NameKey, Sorted, DistinctBy;
    assert |s| == |multiset(s)| == |multiset(t)| == |t|;
    if s != [] {
      FirstsAgree(s, t);
      assert s == [s[0]] + s[1..] && t == [t[0]] + t[1..];
      RemoveAtMultiset(s, 0);
      RemoveAtMultiset(t, 0);
      assert RemoveAt(s, 0) == s[1..] && RemoveAt(t, 0) == t[1..];
      CancelOne(multiset(s[1..]), multiset(t[1..]), s[0]);
      TailDistinct(s);
      TailSorted(s);
      TailSorted(t);
      SortedIsUnique(s[1..], t[1..]);
    }
  }

  lemma TailDistinct(s: seq<Record>)
    requires s != [] && DistinctBy(s, NameKey)
    ensures DistinctBy(s[1..], NameKey)
  {
    hide NameKey;
    assert forall i, j | 0 <= i < j < |s[1..]| :: s[1..][i] == s[i + 1] && s[1..][j] == s[j + 1];
  }

  lemma TailSorted(s: seq<Record>)
    requires s != [] && Sorted(s)
    ensures Sorted(s[1..])
  {
    hide RecordLe;
    assert forall i, j | 0 <= i < j < |s[1..]| :: s[1..][i] == s[i + 1] && s[1..][j] == s[j + 1];
  }

  lemma FirstsAgree(s: seq<Record>, t: seq<Record>)
    requires Sorted(s) && Sorted(t) && multiset(s) == multiset(t) && DistinctBy(s, NameKey)
    requires |s| == |t| > 0
    ensures s[0] == t[0]
  {
    hide RecordLe, NameKey;
    assert s[0] in multiset(t) && t[0] in multiset(s);
    var i :| 0 <= i < |t| && t[i] == s[0];
    var j :| 0 <= j < |s| && s[j] == t[0];
    RecordLeTotal(s[0], t[0]);
    assert forall k | 0 < k < |s| :: RecordLe(s[0], s[k]);
    assert forall k | 0 < k < |t| :: RecordLe(t[0], t[k]);
    assert NameKey(s[0]) == NameKey(s[j]);
  }

  /** Any arrangement of records with distinct names is written the same way. */
  lemma SortForgetsOrder(s: seq<Record>, t: seq<Record>)
    requires multiset(s) == multiset(t) && DistinctBy(s, NameKey)
    ensures SortRecords(s) == SortRecords(t)
  {
    hide SortRecords, NameKey, Sorted;
    SortSorts(s);
    SortSorts(t);
    DistinctByPermutes(s, SortRecords(s), NameKey);
    SortedIsUnique(SortRecords(s), SortRecords(t));
  }
}
