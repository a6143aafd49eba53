/**
 The order in which std::map<string, string> holds its entries, and the effect of inserting entries one
 after the other without overwriting.
 */
module KeyOrder {

  /** Lexicographic order by character. */
  predicate Less(a: string, b: string) {
    b != [] && (a == [] || a[0] < b[0] || (a[0] == b[0] && Less(a[1..], b[1..])))
  }

  predicate Leq(a: string, b: string) {
    a == b || Less(a, b)
  }

  lemma {:induction false} Trichotomy(a: string, b: string)
    ensures a == b || Less(a, b) || Less(b, a)
    ensures !(Less(a, b) && Less(b, a)) && (a == b ==> !Less(a, b))
  {
    if a != [] && b != [] && a[0] == b[0] {
      Trichotomy(a[1..], b[1..]);
      assert a == [a[0]] + a[1..] && b == [b[0]] + b[1..];
    }
  }

  /** Where two texts differ first: one ends, or has the smaller character. */
  predicate DiffersAt(a: string, b: string, i: nat) {
    i <= |a| && i < |b| && a[..i] == b[..i] && (i == |a| || a[i] < b[i])
  }

  lemma {:induction false} LessDiffers(a: string, b: string) returns (i: nat)
    requires Less(a, b)
    ensures DiffersAt(a, b, i)
  {
    if a == [] || a[0] < b[0] {
      i := 0;
    } else {
      i := LessDiffers(a[1..], b[1..]);
      i := i + 1;
      assert a[..i] == [a[0]] + a[1..][..i - 1] && b[..i] == [b[0]] + b[1..][..i - 1];
    }
  }

  lemma {:induction false} DiffersLess(a: string, b: string, i: nat)
    requires DiffersAt(a, b, i)
    ensures Less(a, b)
  {
    if i > 0 {
      assert a[..i][0] == b[..i][0];
      assert a[1..][..i - 1] == a[..i][1..] && b[1..][..i - 1] == b[..i][1..];
      DiffersLess(a[1..], b[1..], i - 1);
    }
  }

  /** The order is that of std::string: one text comes before another exactly when it is a proper beginning of
      it or has the smaller character where they first differ. */
  lemma LessIff(a: string, b: string)
    ensures Less(a, b) <==> exists i: nat :: DiffersAt(a, b, i)
  {
    if Less(a, b) {
      var i := LessDiffers(a, b);
      assert DiffersAt(a, b, i);
    }
    if i: nat :| DiffersAt(a, b, i) {
      DiffersLess(a, b, i);
    }
  }

  lemma {:induction false} LessTransitive(a: string, b: string, c: string)
    requires Less(a, b) && Less(b, c)
    ensures Less(a, c)
  {
    if a != [] && a[0] == b[0] == c[0] {
      LessTransitive(a[1..], b[1..], c[1..]);
    }
  }

  predicate IsLeast(k: string, keys: set<string>) {
    k in keys && forall j :: j in keys ==> Leq(k, j)
  }

  lemma {:induction false} LeastExists(keys: set<string>)
    requires keys != {}
    ensures exists k :: IsLeast(k, keys)
  {
    var x :| x in keys;
    var rest := keys - {x};
    if rest == {} {
      assert keys == {x};
      assert IsLeast(x, keys);
    } else {
      LeastExists(rest);
      var k :| IsLeast(k, rest);
      Trichotomy(x, k);
      var least := if Less(x, k) then x else k;
      forall j | j in keys ensures Leq(least, j) {
        if j != x {
          assert j in rest && Leq(k, j);
          if least == x && k != j {
            LessTransitive(x, k, j);
          }
        }
      }
      assert IsLeast(least, keys);
    }
  }

  lemma LeastUnique(keys: set<string>)
    ensures forall j, k :: IsLeast(j, keys) && IsLeast(k, keys) ==> j == k
  {
    forall j, k | IsLeast(j, keys) && IsLeast(k, keys) ensures j == k {
      Trichotomy(j, k);
    }
  }

  function Least(keys: set<string>): (least: string)
    requires keys != {}
    ensures IsLeast(least, keys)
  {
    LeastExists(keys);
    LeastUnique(keys);
    var k :| k in keys && IsLeast(k, keys);
    k
  }

  type Entry = (string, string)

  /** The entries of a map in iteration order. */
  function Entries(m: map<string, string>): seq<Entry>
    decreases |m.Keys|
  {
    if m == map[] then []
    else
      var k := Least(m.Keys);
      var rest := map j | j in m && j != k :: m[j];
      assert rest.Keys == m.Keys - {k};
      [(k, m[k])] + Entries(rest)
  }

  ghost predicate Ascending(es: seq<Entry>) {
    forall i, j :: 0 <= i < j < |es| ==> Less(es[i].0, es[j].0)
  }

  lemma {:induction false} EntriesAscend(m: map<string, string>)
    ensures Ascending(Entries(m))
    ensures forall e: Entry :: e in Entries(m) <==> e.0 in m && m[e.0] == e.1
    decreases |m.Keys|
  {
    if m != map[] {
      var k := Least(m.Keys);
      var rest := map j | j in m && j != k :: m[j];
      assert rest.Keys == m.Keys - {k};
      EntriesAscend(rest);
      var tail := Entries(rest);
      assert Entries(m) == [(k, m[k])] + tail;
      forall i | 0 <= i < |tail| ensures Less(k, tail[i].0) {
        assert tail[i] in tail;
      }
    }
  }

  // ---- insert ----

  /** What map.insert does for each entry in turn: the first value of a key stays. */
  function InsertAll(es: seq<Entry>): map<string, string> {
    if es == [] then map[]
    else
      var before := InsertAll(es[..|es| - 1]);
      var e := es[|es| - 1];
      if e.0 in before then before else before[e.0 := e.1]
  }

  lemma InsertOne(es: seq<Entry>, e: Entry)
    ensures InsertAll(es + [e]) == if e.0 in InsertAll(es) then InsertAll(es) else InsertAll(es)[e.0 := e.1]
  {
    assert (es + [e])[..|es|] == es;
  }

  ghost predicate FirstWithKey(es: seq<Entry>, i: nat, k: string) {
    i < |es| && es[i].0 == k && forall j :: 0 <= j < i ==> es[j].0 != k
  }

  lemma {:induction false} KeyIsInserted(es: seq<Entry>, k: string)
    ensures k in InsertAll(es) <==> exists i: nat :: i < |es| && es[i].0 == k
  {
    if es != [] {
      var n := |es| - 1;
      KeyIsInserted(es[..n], k);
      if k in InsertAll(es[..n]) {
        var i: nat :| i < n && es[..n][i].0 == k;
        assert es[i].0 == k;
      } else if i: nat :| i < |es| && es[i].0 == k {
        assert i < n ==> es[..n][i].0 == k;
      }
    }
  }

  lemma {:induction false} FirstValueStays(es: seq<Entry>, i: nat, k: string)
    requires FirstWithKey(es, i, k)
    ensures k in InsertAll(es) && InsertAll(es)[k] == es[i].1
  {
    var n := |es| - 1;
    if i < n {
      FirstValueStays(es[..n], i, k);
    } else {
      KeyIsInserted(es[..n], k);
    }
  }

  /** A key is present exactly when some entry has it, with the value of the first such entry. */
  lemma FirstEntryWins(es: seq<Entry>, k: string)
    ensures k in InsertAll(es) <==> exists i: nat :: i < |es| && es[i].0 == k
    ensures forall i: nat :: FirstWithKey(es, i, k) ==> k in InsertAll(es) && InsertAll(es)[k] == es[i].1
  {
    KeyIsInserted(es, k);
    forall i: nat | FirstWithKey(es, i, k) ensures k in InsertAll(es) && InsertAll(es)[k] == es[i].1 {
      FirstValueStays(es, i, k);
    }
  }

  function MapEntries(es: seq<Entry>, f: string -> string): seq<Entry> {
    seq(|es|, i requires 0 <= i < |es| => (f(es[i].0), f(es[i].1)))
  }

  /** Sending entries through f changes nothing exactly when f leaves alone every key and value that
      would be kept; f must not change what it has produced. */
  lemma MapEntriesHarmlessIff(es: seq<Entry>, f: string -> string)
    requires forall s :: f(f(s)) == f(s)
    ensures InsertAll(MapEntries(es, f)) == InsertAll(es) <==>
            forall k :: k in InsertAll(es) ==> f(k) == k && f(InsertAll(es)[k]) == InsertAll(es)[k]
  {
    var fs := MapEntries(es, f);
    var m := InsertAll(es);
    if forall k :: k in m ==> f(k) == k && f(m[k]) == m[k] {
      forall i: nat | i < |es| ensures fs[i].0 == es[i].0 {
        FirstEntryWins(es, es[i].0);
      }
      forall k ensures k in InsertAll(fs) <==> k in m {
        SameKeys(es, fs, k);
      }
      forall k | k in m ensures InsertAll(fs)[k] == m[k] {
        SameKeys(es, fs, k);
        FirstEntryWins(es, k);
        FirstEntryWins(fs, k);
        var i: nat :| i < |es| && es[i].0 == k;
        var j := LeastWithKey(es, i, k);
        assert FirstWithKey(fs, j, k);
      }
    }
    if InsertAll(fs) == m {
      forall k | k in m ensures f(k) == k && f(m[k]) == m[k] {
        FixedPoint(es, f, k);
      }
    }
  }

  lemma SameKeys(es: seq<Entry>, fs: seq<Entry>, k: string)
    requires |es| == |fs| && forall i: nat :: i < |es| ==> fs[i].0 == es[i].0
    ensures k in InsertAll(fs) <==> k in InsertAll(es)
  {
    FirstEntryWins(es, k);
    FirstEntryWins(fs, k);
    if i: nat :| i < |es| && es[i].0 == k {
      assert fs[i].0 == k;
    }
  }

  /** The same for the entries of a map: it comes back unchanged exactly when f leaves it alone. */
  lemma EntriesRoundTrip(m: map<string, string>, f: string -> string)
    requires forall s :: f(f(s)) == f(s)
    ensures InsertAll(MapEntries(Entries(m), f)) == m <==> forall k :: k in m ==> f(k) == k && f(m[k]) == m[k]
  {
    EntriesRestore(m);
    MapEntriesHarmlessIff(Entries(m), f);
  }

  /** Whatever survives MapEntries has been produced by f. */
  lemma FixedPoint(es: seq<Entry>, f: string -> string, k: string)
    requires forall s :: f(f(s)) == f(s)
    requires k in InsertAll(MapEntries(es, f))
    ensures f(k) == k && f(InsertAll(MapEntries(es, f))[k]) == InsertAll(MapEntries(es, f))[k]
  {
    var fs := MapEntries(es, f);
    FirstEntryWins(fs, k);
    var i: nat :| i < |fs| && fs[i].0 == k;
    var j := LeastWithKey(fs, i, k);
    assert fs[j] == (f(es[j].0), f(es[j].1));
  }

  lemma {:induction false} LeastWithKey(es: seq<Entry>, i: nat, k: string) returns (j: nat)
    requires i < |es| && es[i].0 == k
    ensures FirstWithKey(es, j, k)
  {
    if h: nat :| h < i && es[h].0 == k {
      j := LeastWithKey(es, h, k);
    } else {
      j := i;
    }
  }

  lemma EntryRestored(m: map<string, string>, k: string)
    ensures k in InsertAll(Entries(m)) <==> k in m
    ensures k in m ==> InsertAll(Entries(m))[k] == m[k]
  {
    var es := Entries(m);
    EntriesAscend(m);
    FirstEntryWins(es, k);
    if k in m {
      assert (k, m[k]) in es;
      var i :| 0 <= i < |es| && es[i] == (k, m[k]);
      Trichotomy(k, k);
      assert forall j :: 0 <= j < i ==> Less(es[j].0, es[i].0);
      assert FirstWithKey(es, i, k);
    } else {
      assert forall i: nat :: i < |es| ==> es[i] in es;
    }
  }

  lemma EntriesRestore(m: map<string, string>)
    ensures InsertAll(Entries(m)) == m
  {
    var restored := InsertAll(Entries(m));
    forall k ensures (k in restored <==> k in m) && (k in m ==> restored[k] == m[k]) {
      EntryRestored(m, k);
    }
  }
}
