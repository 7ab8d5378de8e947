/** Canonical JSON: the text the guest hashes (vm-agent/src/app_install.rs) and the
    key-sorted value the host prints (crates/nilbox-core/src/vm_install.rs). */
module CanonicalJson {

  import opened JsonText

  /** Equal up to the order of object keys, at every depth. */
  ghost predicate Equiv(v: Json, w: Json)
    decreases v, 1
  {
    match (v, w)
    case (Array(xs), Array(ys)) => |xs| == |ys| && forall i :: 0 <= i < |xs| ==> Equiv(xs[i], ys[i])
    case (Object(es), Object(fs)) => |es| == |fs| && Matched(es, fs)
    case (_, _) => v == w
  }

  /** Every entry of `es` has its equal in `fs`. */
  ghost predicate Matched(es: seq<Entry>, fs: seq<Entry>)
    decreases es, 0
  {
    forall i :: 0 <= i < |es| ==>
      exists j :: 0 <= j < |fs| && fs[j].key == es[i].key && Equiv(es[i].value, fs[j].value)
  }

  // ----- key order -----

  predicate Less(a: string, b: string) {
    b != [] && (a == [] || a[0] < b[0] || (a[0] == b[0] && Less(a[1..], b[1..])))
  }

  /** Lexicographic order by its definition: `b` goes on where `a` ends, or has the larger
      character at the first place where they differ. */
  ghost predicate Before(a: string, b: string) {
    exists k: nat :: k <= |a| && k < |b| && a[..k] == b[..k] && (k == |a| || a[k] < b[k])
  }

  lemma {:induction false} LessIsBefore(a: string, b: string)
    ensures Less(a, b) <==> Before(a, b)
  {
    if a == [] || b == [] || a[0] != b[0] {
      assert a[..0] == b[..0];
      assert forall k: nat :: 0 < k <= |a| && k <= |b| ==> a[..k][0] == a[0] && b[..k][0] == b[0];
    } else {
      LessIsBefore(a[1..], b[1..]);
      if Before(a[1..], b[1..]) {
        var k: nat :| k < |a| && k + 1 < |b| && a[1..][..k] == b[1..][..k] && (k == |a| - 1 || a[1..][k] < b[1..][k]);
        assert a[..k + 1] == [a[0]] + a[1..][..k] && b[..k + 1] == [b[0]] + b[1..][..k];
      }
      if Before(a, b) {
        var k: nat :| k <= |a| && k < |b| && a[..k] == b[..k] && (k == |a| || a[k] < b[k]);
        assert a[1..][..k - 1] == a[..k][1..] && b[1..][..k - 1] == b[..k][1..];
      }
    }
  }

  lemma {:induction false} LessTransitive(a: string, b: string, c: string)
    requires Less(a, b) && Less(b, c)
    ensures Less(a, c)
  {
    if a == [] || a[0] != b[0] || b[0] != c[0] {
    } else {
      LessTransitive(a[1..], b[1..], c[1..]);
    }
  }

  lemma {:induction false} LessTotal(a: string, b: string)
    ensures a == b || Less(a, b) || Less(b, a)
    ensures !(Less(a, b) && Less(b, a)) && !Less(a, a)
  {
    if a == [] {
    } else {
      LessTotal(a[1..], a[1..]);
    }
    if a == [] || b == [] || a[0] != b[0] {
    } else {
      LessTotal(a[1..], b[1..]);
      assert a == [a[0]] + a[1..] && b == [b[0]] + b[1..];
    }
  }

  ghost predicate Sorted(es: seq<Entry>) {
    forall i, j :: 0 <= i < j < |es| ==> Less(es[i].key, es[j].key)
  }

  /** The keys go up. */
  ghost predicate Ascending(es: seq<Entry>) {
    forall i, j :: 0 <= i < j < |es| ==> Before(es[i].key, es[j].key)
  }

  lemma SortedIsAscending(es: seq<Entry>)
    ensures Sorted(es) <==> Ascending(es)
  {
    forall i, j | 0 <= i < j < |es| ensures Less(es[i].key, es[j].key) <==> Before(es[i].key, es[j].key) {
      LessIsBefore(es[i].key, es[j].key);
    }
  }

  // ----- the guest: sort the entries, then print each -----

  function InsertSorted(e: Entry, es: seq<Entry>): (r: seq<Entry>)
    ensures forall x :: x in r <==> x == e || x in es
  {
    if es == [] then [e]
    else if Less(e.key, es[0].key) then [e] + es
    else
      var rest := InsertSorted(e, es[1..]);
      assert forall x :: x in es <==> x == es[0] || x in es[1..];
      [es[0]] + rest
  }

  function SortByKey(es: seq<Entry>): (r: seq<Entry>)
    ensures forall x :: x in r <==> x in es
  {
    if es == [] then []
    else
      assert forall x :: x in es <==> x == es[0] || x in es[1..];
      InsertSorted(es[0], SortByKey(es[1..]))
  }

  function CanonicalJson(v: Json): string
    decreases v, 2
  {
    match v
    case Object(es) => "{" + JoinComma(CanonicalEntries(v, SortByKey(es))) + "}"
    case Array(xs) => "[" + JoinComma(CanonicalItems(xs)) + "]"
    case _ => Print(v)
  }

  function CanonicalItems(xs: seq<Json>): (r: seq<string>)
    ensures |r| == |xs|
    decreases xs, 0
  {
    if xs == [] then [] else [CanonicalJson(xs[0])] + CanonicalItems(xs[1..])
  }

  /** Prints entries of the object `owner`, in the order given. */
  function CanonicalEntries(owner: Json, es: seq<Entry>): (r: seq<string>)
    requires owner.Object? && forall e :: e in es ==> e in owner.entries
    ensures |r| == |es|
    decreases owner, 1, |es|
  {
    if es == [] then []
    else
      assert es[0] in owner.entries;
      ghost var k :| 0 <= k < |owner.entries| && owner.entries[k] == es[0];
      [Quote(es[0].key) + ":" + CanonicalJson(es[0].value)] + CanonicalEntries(owner, es[1..])
  }

  // ----- the host: collect into an ordered map, then back into an object -----

  /** Insertion into a map kept in key order; an equal key is replaced. */
  function Put(m: seq<Entry>, e: Entry): seq<Entry> {
    if m == [] then [e]
    else if m[0].key == e.key then [e] + m[1..]
    else if Less(e.key, m[0].key) then [e] + m
    else [m[0]] + Put(m[1..], e)
  }

  function Collect(es: seq<Entry>): seq<Entry> {
    if es == [] then [] else Put(Collect(es[..|es| - 1]), es[|es| - 1])
  }

  function CanonicalValue(v: Json): Json
    decreases v, 1
  {
    match v
    case Object(es) => Object(Collect(CanonicalFields(es)))
    case Array(xs) => Array(CanonicalAll(xs))
    case _ => v
  }

  function CanonicalAll(xs: seq<Json>): (r: seq<Json>)
    ensures |r| == |xs|
    decreases xs, 0
  {
    if xs == [] then [] else [CanonicalValue(xs[0])] + CanonicalAll(xs[1..])
  }

  function CanonicalFields(es: seq<Entry>): (r: seq<Entry>)
    ensures |r| == |es|
    decreases es, 0
  {
    if es == [] then [] else [Entry(es[0].key, CanonicalValue(es[0].value))] + CanonicalFields(es[1..])
  }

  // ----- the two agree -----

  ghost predicate SameEntries(a: seq<Entry>, b: seq<Entry>) { forall x :: x in a <==> x in b }

  lemma {:induction false} SortedIsUnique(a: seq<Entry>, b: seq<Entry>)
    requires Sorted(a) && Sorted(b) && SameEntries(a, b)
    ensures a == b
  {
    assert (a != [] ==> a[0] in b) && (b != [] ==> b[0] in a);
    if a == [] {
    } else {
      HeadIsLeast(a, b[0]);
      HeadIsLeast(b, a[0]);
      LessTotal(a[0].key, b[0].key);
      assert a[0] == b[0];
      TailEntries(a);
      TailEntries(b);
      SortedIsUnique(a[1..], b[1..]);
      assert a == [a[0]] + a[1..] && b == [b[0]] + b[1..];
    }
  }

  lemma HeadIsLeast(a: seq<Entry>, x: Entry)
    requires Sorted(a) && x in a
    ensures x == a[0] || Less(a[0].key, x.key)
  {
  }

  lemma TailEntries(a: seq<Entry>)
    requires Sorted(a) && a != []
    ensures Sorted(a[1..]) && forall x :: x in a[1..] <==> x in a && x != a[0]
  {
    LessTotal(a[0].key, a[0].key);
    forall x | x in a && x != a[0] ensures x in a[1..] {
      var i :| 0 <= i < |a| && a[i] == x;
      assert a[1..][i - 1] == x;
    }
    forall x | x in a[1..] ensures x in a && x != a[0] {
      var i :| 0 <= i < |a| - 1 && a[1..][i] == x;
      assert a[i + 1] == x && Less(a[0].key, a[i + 1].key);
    }
  }

  ghost predicate FreshKey(k: string, es: seq<Entry>) { forall x :: x in es ==> x.key != k }

  lemma {:induction false} InsertKeepsSorted(e: Entry, es: seq<Entry>)
    requires Sorted(es) && FreshKey(e.key, es)
    ensures Sorted(InsertSorted(e, es))
  {
    if es == [] {
    } else {
      LessTotal(e.key, es[0].key);
      assert es[0] in es;
      if Less(e.key, es[0].key) {
        forall i | 0 < i < |es| ensures Less(e.key, es[i].key) {
          LessTransitive(e.key, es[0].key, es[i].key);
        }
      } else {
        InsertKeepsSorted(e, es[1..]);
        ConsSorted(es[0], InsertSorted(e, es[1..]));
      }
    }
  }

  lemma ConsSorted(e: Entry, es: seq<Entry>)
    requires Sorted(es) && forall x :: x in es ==> Less(e.key, x.key)
    ensures Sorted([e] + es)
  {
  }

  lemma {:induction false} SortSorts(es: seq<Entry>)
    requires DistinctKeys(es)
    ensures Sorted(SortByKey(es)) && Ascending(SortByKey(es))
  {
    if es == [] {
    } else {
      SortSorts(es[1..]);
      InsertKeepsSorted(es[0], SortByKey(es[1..]));
    }
    SortedIsAscending(SortByKey(es));
  }

  lemma {:induction false} PutKeepsSorted(m: seq<Entry>, e: Entry)
    requires Sorted(m) && FreshKey(e.key, m)
    ensures Sorted(Put(m, e)) && forall x :: x in Put(m, e) <==> x == e || x in m
  {
    if m == [] {
    } else {
      assert m[0] in m;
      LessTotal(e.key, m[0].key);
      if Less(e.key, m[0].key) {
        forall x | x in m ensures Less(e.key, x.key) {
          if x != m[0] {
            HeadIsLeast(m, x);
            LessTransitive(e.key, m[0].key, x.key);
          }
        }
        ConsSorted(e, m);
      } else {
        PutKeepsSorted(m[1..], e);
        ConsSorted(m[0], Put(m[1..], e));
        assert m == [m[0]] + m[1..];
      }
    }
  }

  lemma {:induction false} CollectSorts(es: seq<Entry>)
    requires DistinctKeys(es)
    ensures Sorted(Collect(es)) && Ascending(Collect(es)) && SameEntries(Collect(es), es)
  {
    if es == [] {
    } else {
      var front, last := es[..|es| - 1], es[|es| - 1];
      CollectSorts(front);
      PutKeepsSorted(Collect(front), last);
      assert es == front + [last];
    }
    SortedIsAscending(Collect(es));
  }

  lemma {:induction false} FieldsAt(es: seq<Entry>)
    ensures forall i :: 0 <= i < |es| ==>
      CanonicalFields(es)[i] == Entry(es[i].key, CanonicalValue(es[i].value))
  {
    if es == [] {
    } else {
      FieldsAt(es[1..]);
    }
  }

  /** Collecting the converted fields is converting the sorted entries. */
  lemma CollectIsSort(es: seq<Entry>)
    requires DistinctKeys(es)
    ensures DistinctKeys(CanonicalFields(es))
    ensures Collect(CanonicalFields(es)) == CanonicalFields(SortByKey(es))
  {
    FieldsAt(es);
    var fs, ss := CanonicalFields(es), SortByKey(es);
    CollectSorts(fs);
    SortSorts(es);
    FieldsAt(ss);
    var gs := CanonicalFields(ss);
    forall x | x in fs ensures x in gs {
      var i :| 0 <= i < |fs| && fs[i] == x;
      assert es[i] in ss;
      var j :| 0 <= j < |ss| && ss[j] == es[i];
      assert gs[j] == x;
    }
    forall x | x in gs ensures x in fs {
      var j :| 0 <= j < |gs| && gs[j] == x;
      assert ss[j] in es;
      var i :| 0 <= i < |es| && es[i] == ss[j];
      assert fs[i] == x;
    }
    SortedIsUnique(Collect(fs), gs);
  }

  /** The guest's canonical text is the compact printing of the host's sorted value. */
  lemma {:induction false} GuestAgreesWithHost(v: Json)
    requires WellFormed(v)
    ensures CanonicalJson(v) == Print(CanonicalValue(v))
    decreases v, 2
  {
    match v
    case Array(xs) => ItemsAgree(xs);
    case Object(es) =>
      CollectIsSort(es);
      EntriesAgree(v, SortByKey(es));
    case _ =>
  }

  lemma {:induction false} ItemsAgree(xs: seq<Json>)
    requires forall i :: 0 <= i < |xs| ==> WellFormed(xs[i])
    ensures CanonicalItems(xs) == PrintItems(CanonicalAll(xs))
    decreases xs, 0
  {
    if xs == [] {
    } else {
      GuestAgreesWithHost(xs[0]);
      ItemsAgree(xs[1..]);
    }
  }

  lemma {:induction false} EntriesAgree(owner: Json, es: seq<Entry>)
    requires owner.Object? && WellFormed(owner) && forall e :: e in es ==> e in owner.entries
    ensures CanonicalEntries(owner, es) == PrintEntries(CanonicalFields(es))
    decreases owner, 1, |es|
  {
    if es == [] {
    } else {
      assert es[0] in owner.entries;
      var k :| 0 <= k < |owner.entries| && owner.entries[k] == es[0];
      GuestAgreesWithHost(owner.entries[k].value);
      EntriesAgree(owner, es[1..]);
    }
  }

  // ----- canonical values -----

  lemma {:induction false} AllAt(xs: seq<Json>)
    ensures forall i :: 0 <= i < |xs| ==> CanonicalAll(xs)[i] == CanonicalValue(xs[i])
  {
    if xs == [] {
    } else {
      AllAt(xs[1..]);
    }
  }

  lemma SortedKeysDistinct(es: seq<Entry>)
    requires Sorted(es)
    ensures DistinctKeys(es)
  {
    forall i, j | 0 <= i < j < |es| ensures es[i].key != es[j].key {
      LessTotal(es[i].key, es[j].key);
      LessTotal(es[i].key, es[i].key);
    }
  }

  lemma {:induction false} CanonicalWellFormed(v: Json)
    requires WellFormed(v)
    ensures WellFormed(CanonicalValue(v))
  {
    match v
    case Array(xs) =>
      AllAt(xs);
      forall i | 0 <= i < |xs| ensures WellFormed(CanonicalAll(xs)[i]) {
        CanonicalWellFormed(xs[i]);
      }
    case Object(es) =>
      FieldsAt(es);
      CollectSorts(CanonicalFields(es));
      var m := Collect(CanonicalFields(es));
      SortedKeysDistinct(m);
      forall i | 0 <= i < |m| ensures WellFormed(m[i].value) {
        assert m[i] in CanonicalFields(es);
        var j :| 0 <= j < |es| && CanonicalFields(es)[j] == m[i];
        CanonicalWellFormed(es[j].value);
      }
    case _ =>
  }

  lemma {:induction false} DistinctCount(es: seq<Entry>)
    requires DistinctKeys(es)
    ensures |set x | x in es| == |es|
  {
    var all := set x | x in es;
    if es == [] {
      assert all == {};
    } else {
      var front, last := es[..|es| - 1], es[|es| - 1];
      DistinctCount(front);
      assert last !in front;
      assert all == (set x | x in front) + {last};
    }
  }

  /** Distinct entries of one list all found in another of the same length exhaust it. */
  lemma SubsetIsSame(a: seq<Entry>, b: seq<Entry>)
    requires DistinctKeys(a) && DistinctKeys(b) && |a| == |b|
    requires forall x :: x in a ==> x in b
    ensures SameEntries(a, b)
  {
    DistinctCount(a);
    DistinctCount(b);
    var sa, sb := set x | x in a, set x | x in b;
    assert sa <= sb;
    SubsetSameSize(sa, sb);
    forall x | x in b ensures x in a {
      assert x in sb;
    }
  }

  lemma SubsetSameSize<T>(a: set<T>, b: set<T>)
    requires a <= b && |a| == |b|
    ensures a == b
  {
    assert |b - a| == |b| - |a|;
  }

  lemma CollectLength(es: seq<Entry>)
    requires DistinctKeys(es)
    ensures |Collect(es)| == |es|
  {
    CollectSorts(es);
    SortedKeysDistinct(Collect(es));
    DistinctCount(es);
    DistinctCount(Collect(es));
    assert (set x | x in es) == (set x | x in Collect(es));
  }

  /** The host's sorted values are equal exactly for values equal up to key order. */
  lemma {:induction false} CanonicalValueDecides(v: Json, w: Json)
    requires WellFormed(v) && WellFormed(w)
    ensures CanonicalValue(v) == CanonicalValue(w) <==> Equiv(v, w)
    decreases v
  {
    if v.Array? && w.Array? {
      AllAt(v.items);
      AllAt(w.items);
      forall i | 0 <= i < |v.items| && i < |w.items|
        ensures CanonicalAll(v.items)[i] == CanonicalAll(w.items)[i] <==> Equiv(v.items[i], w.items[i])
      {
        CanonicalValueDecides(v.items[i], w.items[i]);
      }
      assert CanonicalValue(v) == CanonicalValue(w) ==> |CanonicalAll(v.items)| == |CanonicalAll(w.items)|;
    } else if v.Object? && w.Object? {
      forall i, j | 0 <= i < |v.entries| && 0 <= j < |w.entries|
        ensures Decides(v.entries[i].value, w.entries[j].value)
      {
        CanonicalValueDecides(v.entries[i].value, w.entries[j].value);
      }
      ObjectsDecide(v.entries, w.entries);
    }
  }

  ghost predicate ValuesDecide(es: seq<Entry>, fs: seq<Entry>) {
    forall i, j :: 0 <= i < |es| && 0 <= j < |fs| ==> Decides(es[i].value, fs[j].value)
  }

  ghost predicate Decides(v: Json, w: Json) { CanonicalValue(v) == CanonicalValue(w) <==> Equiv(v, w) }

  lemma ObjectsDecide(es: seq<Entry>, fs: seq<Entry>)
    requires DistinctKeys(es) && DistinctKeys(fs) && ValuesDecide(es, fs)
    ensures Collect(CanonicalFields(es)) == Collect(CanonicalFields(fs)) <==> Equiv(Object(es), Object(fs))
  {
    if Collect(CanonicalFields(es)) == Collect(CanonicalFields(fs)) {
      EqualObjectsEquiv(es, fs);
    }
    if Equiv(Object(es), Object(fs)) {
      EquivObjectsEqual(es, fs);
    }
  }

  lemma CollectedFrom(ms: seq<Entry>, ns: seq<Entry>, i: nat) returns (j: nat)
    requires DistinctKeys(ms) && DistinctKeys(ns) && Collect(ms) == Collect(ns) && i < |ms|
    ensures j < |ns| && ns[j] == ms[i]
  {
    CollectSorts(ms);
    CollectSorts(ns);
    assert ms[i] in Collect(ms);
    j :| 0 <= j < |ns| && ns[j] == ms[i];
  }

  lemma FieldsDistinct(es: seq<Entry>)
    requires DistinctKeys(es)
    ensures DistinctKeys(CanonicalFields(es))
  {
    FieldsAt(es);
  }

  lemma FieldsMatch(es: seq<Entry>, fs: seq<Entry>, i: nat) returns (j: nat)
    requires DistinctKeys(es) && DistinctKeys(fs) && i < |es|
    requires Collect(CanonicalFields(es)) == Collect(CanonicalFields(fs))
    ensures j < |fs| && fs[j].key == es[i].key && CanonicalValue(fs[j].value) == CanonicalValue(es[i].value)
  {
    FieldsDistinct(es);
    FieldsDistinct(fs);
    j := CollectedFrom(CanonicalFields(es), CanonicalFields(fs), i);
    FieldsAt(es);
    FieldsAt(fs);
  }

  lemma EqualObjectsEquiv(es: seq<Entry>, fs: seq<Entry>)
    requires DistinctKeys(es) && DistinctKeys(fs) && ValuesDecide(es, fs)
    requires Collect(CanonicalFields(es)) == Collect(CanonicalFields(fs))
    ensures Equiv(Object(es), Object(fs))
  {
    FieldsDistinct(es);
    FieldsDistinct(fs);
    CollectLength(CanonicalFields(es));
    CollectLength(CanonicalFields(fs));
    forall i | 0 <= i < |es|
      ensures exists j :: 0 <= j < |fs| && fs[j].key == es[i].key && Equiv(es[i].value, fs[j].value)
    {
      var j := FieldsMatch(es, fs, i);
      assert Decides(es[i].value, fs[j].value);
    }
  }

  lemma EquivObjectsEqual(es: seq<Entry>, fs: seq<Entry>)
    requires DistinctKeys(es) && DistinctKeys(fs) && ValuesDecide(es, fs)
    requires Equiv(Object(es), Object(fs))
    ensures Collect(CanonicalFields(es)) == Collect(CanonicalFields(fs))
  {
    var ms, ns := CanonicalFields(es), CanonicalFields(fs);
    FieldsAt(es);
    FieldsAt(fs);
    forall x | x in ms ensures x in ns {
      var i :| 0 <= i < |ms| && ms[i] == x;
      var j :| 0 <= j < |fs| && fs[j].key == es[i].key && Equiv(es[i].value, fs[j].value);
      assert Decides(es[i].value, fs[j].value);
      assert ns[j] == x;
    }
    SubsetIsSame(ms, ns);
    CollectSorts(ms);
    CollectSorts(ns);
    SortedIsUnique(Collect(ms), Collect(ns));
  }

  /** The canonical texts of two values are the same exactly when the values are equal up
      to the order of object keys at every depth. */
  lemma CanonicalJsonDecides(v: Json, w: Json)
    requires WellFormed(v) && WellFormed(w)
    ensures CanonicalJson(v) == CanonicalJson(w) <==> Equiv(v, w)
  {
    GuestAgreesWithHost(v);
    GuestAgreesWithHost(w);
    CanonicalWellFormed(v);
    CanonicalWellFormed(w);
    PrintCancels(CanonicalValue(v), CanonicalValue(w), [], []);
    CanonicalValueDecides(v, w);
  }

  // ----- reading a canonical text -----

  /** The keys of every object go up, at every depth. */
  ghost predicate AscendingDeep(v: Json) {
    match v
    case Array(xs) => forall i :: 0 <= i < |xs| ==> AscendingDeep(xs[i])
    case Object(es) => Ascending(es) && forall i :: 0 <= i < |es| ==> AscendingDeep(es[i].value)
    case _ => true
  }

  /** Sorting a value leaves keys in order, and sorting it again changes nothing. */
  lemma {:induction false} CanonicalIsFixed(v: Json)
    requires WellFormed(v)
    ensures AscendingDeep(CanonicalValue(v)) && CanonicalValue(CanonicalValue(v)) == CanonicalValue(v)
  {
    match v
    case Array(xs) =>
      var ys := CanonicalAll(xs);
      AllAt(xs);
      AllAt(ys);
      forall i | 0 <= i < |xs| ensures AscendingDeep(ys[i]) && CanonicalValue(ys[i]) == ys[i] {
        CanonicalIsFixed(xs[i]);
      }
      assert CanonicalAll(ys) == ys;
    case Object(es) =>
      var m := Collect(CanonicalFields(es));
      FieldsAt(es);
      CollectSorts(CanonicalFields(es));
      forall i | 0 <= i < |m| ensures AscendingDeep(m[i].value) && CanonicalValue(m[i].value) == m[i].value {
        assert m[i] in CanonicalFields(es);
        var j :| 0 <= j < |es| && CanonicalFields(es)[j] == m[i];
        CanonicalIsFixed(es[j].value);
      }
      SortedStays(m);
    case _ =>
  }

  lemma SortedStays(m: seq<Entry>)
    requires Sorted(m) && forall i :: 0 <= i < |m| ==> CanonicalValue(m[i].value) == m[i].value
    ensures Collect(CanonicalFields(m)) == m
  {
    FieldsAt(m);
    assert CanonicalFields(m) == m;
    SortedKeysDistinct(m);
    CollectSorts(m);
    SortedIsUnique(Collect(m), m);
  }

  /** The canonical text is a JSON text of the same value up to key order, with its keys going up. */
  lemma CanonicalTextReads(v: Json)
    requires WellFormed(v)
    ensures var r := Read(CanonicalJson(v)); r.Got? && Equiv(v, r.value) && AscendingDeep(r.value)
  {
    GuestAgreesWithHost(v);
    CanonicalWellFormed(v);
    ReadInvertsPrint(CanonicalValue(v));
    CanonicalIsFixed(v);
    CanonicalValueDecides(v, CanonicalValue(v));
  }

  // ----- checking a manifest -----

  const TASKFILE := "taskfile_content"

  function Without(es: seq<Entry>, key: string): seq<Entry> {
    if es == [] then []
    else if es[0].key == key then es[1..]
    else [es[0]] + Without(es[1..], key)
  }

  /** The manifest body that is hashed: everything but the task file. */
  function Hashed(manifest: Json): Json {
    if manifest.Object? then Object(Without(manifest.entries, TASKFILE)) else manifest
  }

  predicate VerifyManifest<D(==)>(sha256: string -> D, manifest: Json, expected: D) {
    sha256(CanonicalJson(Hashed(manifest))) == expected
  }

  lemma {:induction false} WithoutEntries(es: seq<Entry>, key: string)
    requires DistinctKeys(es)
    ensures DistinctKeys(Without(es, key))
    ensures forall x :: x in Without(es, key) <==> x in es && x.key != key
  {
    if es == [] {
    } else {
      WithoutEntries(es[1..], key);
      assert forall x :: x in es <==> x == es[0] || x in es[1..];
      assert forall x :: x in es[1..] ==> x.key != es[0].key;
    }
  }

  lemma HashedWellFormed(m: Json)
    requires WellFormed(m)
    ensures WellFormed(Hashed(m))
  {
    if m.Object? {
      WithoutEntries(m.entries, TASKFILE);
      var fs := Hashed(m).entries;
      forall i | 0 <= i < |fs| ensures WellFormed(fs[i].value) {
        assert fs[i] in fs;
      }
    }
  }

  /** Entries of `es` other than the task file have their equals in `fs`. */
  ghost predicate BodyIn(es: seq<Entry>, fs: seq<Entry>) {
    forall i :: 0 <= i < |es| && es[i].key != "taskfile_content" ==>
      exists j :: 0 <= j < |fs| && fs[j].key == es[i].key && Equiv(es[i].value, fs[j].value)
  }

  /** The same manifest, the order of keys and the task file aside. */
  ghost predicate SameBody(m: Json, n: Json) {
    if m.Object? && n.Object? then BodyIn(m.entries, n.entries) && BodyIn(n.entries, m.entries)
    else Equiv(m, n)
  }

  lemma EquivSymmetric(v: Json, w: Json)
    requires WellFormed(v) && WellFormed(w) && Equiv(v, w)
    ensures Equiv(w, v)
  {
    CanonicalValueDecides(v, w);
    CanonicalValueDecides(w, v);
  }

  function KeysOf(es: seq<Entry>): set<string> { set x | x in es :: x.key }

  lemma {:induction false} KeyCount(es: seq<Entry>)
    requires DistinctKeys(es)
    ensures |KeysOf(es)| == |es|
  {
    if es == [] {
    } else {
      var front, last := es[..|es| - 1], es[|es| - 1];
      KeyCount(front);
      assert KeysOf(es) == KeysOf(front) + {last.key};
      assert last.key !in KeysOf(front);
    }
  }

  lemma MatchedKeys(es: seq<Entry>, fs: seq<Entry>)
    requires Matched(es, fs)
    ensures KeysOf(es) <= KeysOf(fs)
  {
    forall k | k in KeysOf(es) ensures k in KeysOf(fs) {
      var i :| 0 <= i < |es| && es[i].key == k;
      var j :| 0 <= j < |fs| && fs[j].key == es[i].key && Equiv(es[i].value, fs[j].value);
      assert fs[j] in fs;
    }
  }

  lemma MatchedBack(es: seq<Entry>, fs: seq<Entry>)
    requires WellFormed(Object(es)) && WellFormed(Object(fs)) && |es| == |fs| && Matched(es, fs)
    ensures Matched(fs, es)
  {
    KeyCount(es);
    KeyCount(fs);
    MatchedKeys(es, fs);
    SubsetSameSize(KeysOf(es), KeysOf(fs));
    forall j | 0 <= j < |fs|
      ensures exists i :: 0 <= i < |es| && es[i].key == fs[j].key && Equiv(fs[j].value, es[i].value)
    {
      assert fs[j] in fs && fs[j].key in KeysOf(es);
      var i :| 0 <= i < |es| && es[i].key == fs[j].key;
      EquivSymmetric(es[i].value, fs[j].value);
    }
  }

  /** Equal lengths and matching one way is matching both ways. */
  lemma MatchedBothWays(es: seq<Entry>, fs: seq<Entry>)
    requires WellFormed(Object(es)) && WellFormed(Object(fs))
    ensures Equiv(Object(es), Object(fs)) <==> Matched(es, fs) && Matched(fs, es)
  {
    if Matched(es, fs) && Matched(fs, es) {
      KeyCount(es);
      KeyCount(fs);
      MatchedKeys(es, fs);
      MatchedKeys(fs, es);
      assert KeysOf(es) == KeysOf(fs);
    }
    if |es| == |fs| && Matched(es, fs) {
      MatchedBack(es, fs);
    }
  }

  lemma BodyIsMatched(es: seq<Entry>, fs: seq<Entry>)
    requires DistinctKeys(es) && DistinctKeys(fs)
    ensures Matched(Without(es, TASKFILE), Without(fs, TASKFILE)) <==> BodyIn(es, fs)
  {
    var es', fs' := Without(es, TASKFILE), Without(fs, TASKFILE);
    WithoutEntries(es, TASKFILE);
    WithoutEntries(fs, TASKFILE);
    if Matched(es', fs') {
      forall i | 0 <= i < |es| && es[i].key != "taskfile_content"
        ensures exists j :: 0 <= j < |fs| && fs[j].key == es[i].key && Equiv(es[i].value, fs[j].value)
      {
        assert es[i] in es';
        var a :| 0 <= a < |es'| && es'[a] == es[i];
        var b :| 0 <= b < |fs'| && fs'[b].key == es'[a].key && Equiv(es'[a].value, fs'[b].value);
        assert fs'[b] in fs;
      }
    }
    if BodyIn(es, fs) {
      forall a | 0 <= a < |es'|
        ensures exists b :: 0 <= b < |fs'| && fs'[b].key == es'[a].key && Equiv(es'[a].value, fs'[b].value)
      {
        assert es'[a] in es' && es'[a] in es;
        var i :| 0 <= i < |es| && es[i] == es'[a];
        var j :| 0 <= j < |fs| && fs[j].key == es[i].key && Equiv(es[i].value, fs[j].value);
        assert fs[j] in fs';
      }
    }
  }

  lemma SameBodyIsEquiv(m: Json, n: Json)
    requires WellFormed(m) && WellFormed(n)
    ensures Equiv(Hashed(m), Hashed(n)) <==> SameBody(m, n)
  {
    if m.Object? && n.Object? {
      HashedWellFormed(m);
      HashedWellFormed(n);
      MatchedBothWays(Hashed(m).entries, Hashed(n).entries);
      BodyIsMatched(m.entries, n.entries);
      BodyIsMatched(n.entries, m.entries);
    }
  }

  /** A digest accepts a second manifest exactly when it has the same body up to key order,
      the task file aside, unless the hash collides on the two canonical texts. */
  lemma ManifestCheckDecides<D>(sha256: string -> D, m: Json, n: Json)
    requires WellFormed(m) && WellFormed(n)
    requires sha256(CanonicalJson(Hashed(m))) == sha256(CanonicalJson(Hashed(n))) ==>
      CanonicalJson(Hashed(m)) == CanonicalJson(Hashed(n))
    ensures VerifyManifest(sha256, n, sha256(CanonicalJson(Hashed(m)))) <==> SameBody(m, n)
  {
    HashedWellFormed(m);
    HashedWellFormed(n);
    CanonicalJsonDecides(Hashed(m), Hashed(n));
    SameBodyIsEquiv(m, n);
  }
}
