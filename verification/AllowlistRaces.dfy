/** The bypass set when calls overlap. Insert, delete and seed change the table under the
    connection lock, release it, and refresh the set in two further steps: a SELECT under
    that lock, and the replacement of the set under its own
    (crates/nilbox-core/src/config_store.rs, lines 404 to 420, 1168 to 1256). */
module AllowlistRaces {
  import opened Allowlist
  import opened Runs

  /** What one call does to the table while it holds the connection. */
  datatype Commit =
    | Insert(domain: string, mode: Mode)
    | Delete(domain: string)
    | SeedSystem(allow: seq<string>, bypass: seq<string>)

  predicate IsSystem(t: Table, domain: string) { domain in t && t[domain].isSystem }

  function Committed(t: Table, c: Commit): Table {
    match c
    case Insert(domain, mode) => Inserted(t, domain, mode)
    case Delete(domain) => if IsSystem(t, domain) then t else t - {domain}
    case SeedSystem(allow, bypass) => SystemBypassed(SystemAllowed(t, allow), bypass)
  }

  /** Whether the call goes on to refresh the set. */
  predicate Refreshes(t: Table, c: Commit) {
    match c
    case Insert(_, mode) => mode == Bypass
    case Delete(domain) => !IsSystem(t, domain)
    case SeedSystem(_, _) => true
  }

  /** A commit changes the table as the call would that runs alone. */
  lemma CommitsAreCalls(t: Table, cache: set<string>, c: Commit)
    ensures Committed(t, c) == Allowlist.Apply(Store(t, cache), match c
      case Insert(domain, mode) => Inserting(domain, mode)
      case Delete(domain) => Deleting(domain)
      case SeedSystem(allow, bypass) => Seeding([], allow, bypass)).table
  {
  }

  /** Where a call that refreshes stands: `at` is the version of the table its SELECT saw. */
  datatype Phase = MustSelect | Selected(rows: set<string>, at: nat)

  /** Every version of the table with the commits between them; the set, and the version it
      was selected from; and the calls in flight. */
  datatype World = World(
    versions: seq<Table>, commits: seq<Commit>, cache: set<string>, shown: nat, calls: map<nat, Phase>, issued: nat)

  datatype Step = Commits(c: Commit) | Selects(call: nat) | Publishes(call: nat)

  function Start(rows: Table): World { World([rows], [], BypassRows(rows), 0, map[], 0) }

  predicate Shaped(w: World) { |w.versions| == |w.commits| + 1 && w.shown < |w.versions| }

  function Last(w: World): Table
    requires Shaped(w)
  {
    w.versions[|w.commits|]
  }

  ghost function Now(w: World): Store
    requires Shaped(w)
  {
    Store(Last(w), w.cache)
  }

  predicate Quiet(w: World) { w.calls == map[] }

  predicate Enabled(w: World, step: Step) {
    Shaped(w) &&
    match step
    case Commits(_) => true
    case Selects(k) => k in w.calls && w.calls[k].MustSelect?
    case Publishes(k) => k in w.calls && w.calls[k].Selected? && w.calls[k].at < |w.versions|
  }

  function Apply(w: World, step: Step): World
    requires Enabled(w, step)
  {
    match step
    case Commits(c) =>
      var v := w.(versions := w.versions + [Committed(Last(w), c)], commits := w.commits + [c]);
      if Refreshes(Last(w), c) then v.(calls := w.calls[w.issued := MustSelect], issued := w.issued + 1) else v
    case Selects(k) => w.(calls := w.calls[k := Selected(BypassRows(Last(w)), |w.commits|)])
    case Publishes(k) => w.(cache := w.calls[k].rows, shown := w.calls[k].at, calls := w.calls - {k})
  }

  ghost predicate Next(w: World, v: World) { exists step :: Enabled(w, step) && v == Apply(w, step) }

  // ----- what every interleaving keeps -----

  ghost predicate Sound(w: World) {
    && Shaped(w)
    && (forall i: nat :: i < |w.commits| ==> VersionOk(w, i))
    && w.cache == BypassRows(w.versions[w.shown])
    && (forall k :: k in w.calls ==> k < w.issued)
    && (forall k :: k in w.calls && w.calls[k].Selected? ==>
          w.calls[k].at < |w.versions| && w.calls[k].rows == BypassRows(w.versions[w.calls[k].at]))
  }

  ghost predicate VersionOk(w: World, i: nat)
    requires i < |w.commits| && Shaped(w)
  {
    w.versions[i + 1] == Committed(w.versions[i], w.commits[i])
  }

  lemma StepKeepsSound(w: World, step: Step)
    requires Sound(w) && Enabled(w, step)
    ensures Sound(Apply(w, step))
  {
    var v := Apply(w, step);
    forall i: nat | i < |v.commits| ensures VersionOk(v, i) {
      if i < |w.commits| {
        assert VersionOk(w, i);
      }
    }
  }

  lemma ReachableIsSound(rows: Table, w: World)
    requires Reachable(Start(rows), Next, w)
    ensures Sound(w)
  {
    forall a, b | Sound(a) && Next(a, b) ensures Sound(b) {
      var step :| Enabled(a, step) && b == Apply(a, step);
      StepKeepsSound(a, step);
    }
    ReachableKeeps(Start(rows), Next, Sound, w);
  }

  // ----- when the set is right -----

  /** Became, or ceased to be, a bypass row since the SELECT whose rows the set holds. */
  ghost predicate Became(w: World, d: string)
    requires Shaped(w)
  {
    d in BypassRows(Last(w)) && d !in BypassRows(w.versions[w.shown])
  }

  ghost predicate Ceased(w: World, d: string)
    requires Shaped(w)
  {
    d !in BypassRows(Last(w)) && d in BypassRows(w.versions[w.shown])
  }

  /** In every interleaving, in every state: the set holds every bypass row if and only if
      none became one since the SELECT of the last publisher, and it equals them if and only
      if besides none ceased to be one. */
  lemma RightIffUnchangedSinceSelect(rows: Table, w: World)
    requires Reachable(Start(rows), Next, w)
    ensures Shaped(w)
    ensures Covers(Now(w)) <==> forall d :: !Became(w, d)
    ensures Exact(Now(w)) <==> forall d :: !Became(w, d) && !Ceased(w, d)
  {
    ReachableIsSound(rows, w);
    assert forall d :: Became(w, d) <==> d in BypassRows(Last(w)) && d !in w.cache;
    assert forall d :: Ceased(w, d) <==> d !in BypassRows(Last(w)) && d in w.cache;
    forall d | d in BypassRows(Last(w)) && !Became(w, d) ensures d in w.cache {
    }
    forall d | d in w.cache && !Ceased(w, d) ensures d in BypassRows(Last(w)) {
    }
  }

  /** A call that committed after the SELECT of the last publisher and refreshes the set: in
      a quiet state it has published, and an older SELECT was published over it. */
  ghost predicate OvertakenAt(w: World, i: nat)
    requires Shaped(w)
  {
    w.shown <= i < |w.commits| && Refreshes(w.versions[i], w.commits[i])
  }

  ghost predicate Overtaken(w: World)
    requires Shaped(w)
  {
    exists i: nat :: OvertakenAt(w, i)
  }

  /** An Inspect insert over a user's bypass row. */
  predicate Demotes(t: Table, c: Commit) {
    c.Insert? && c.mode == Inspect && c.domain in t && t[c.domain] == Row(Bypass, false)
  }

  /** The commit makes a bypass row of `d`. */
  predicate Promotes(c: Commit, d: string) {
    (c.Insert? && c.domain == d && c.mode == Bypass) || (c.SeedSystem? && d in c.bypass)
  }

  lemma CommitEffect(t: Table, c: Commit)
    ensures !Refreshes(t, c) ==> BypassRows(Committed(t, c)) <= BypassRows(t)
    ensures !Refreshes(t, c) ==> (BypassRows(Committed(t, c)) == BypassRows(t) <==> !Demotes(t, c))
  {
    if c.Insert? && c.mode == Inspect {
      var u := Committed(t, c);
      assert c.domain in BypassRows(t) <==> c.domain in t && t[c.domain].mode == Bypass;
      assert c.domain in BypassRows(u) <==> u[c.domain].mode == Bypass;
    }
  }

  lemma PromotionEffect(t: Table, c: Commit, d: string)
    requires d !in BypassRows(t) && d in BypassRows(Committed(t, c))
    ensures Promotes(c, d) && Refreshes(t, c)
  {
    if c.SeedSystem? {
      AllowedPromotesNone(t, c.allow, d);
      BypassedPromotes(SystemAllowed(t, c.allow), c.bypass, d);
    }
  }

  lemma {:induction false} AllowedPromotesNone(t: Table, allow: seq<string>, d: string)
    ensures d in BypassRows(SystemAllowed(t, allow)) <==> d in BypassRows(t)
  {
    if allow == [] {
    } else {
      AllowedPromotesNone(t, allow[..|allow| - 1], d);
    }
  }

  lemma {:induction false} BypassedPromotes(t: Table, bypass: seq<string>, d: string)
    ensures d in BypassRows(SystemBypassed(t, bypass)) ==> d in BypassRows(t) || d in bypass
  {
    if bypass == [] {
    } else {
      BypassedPromotes(t, bypass[..|bypass| - 1], d);
    }
  }

  /** Versions `lo` to `hi` when nothing between them refreshes. */
  lemma {:induction false} QuietCommitsShrink(w: World, lo: nat, hi: nat)
    requires Sound(w) && lo <= hi <= |w.commits|
    requires forall i: nat :: lo <= i < hi ==> !Refreshes(w.versions[i], w.commits[i])
    ensures BypassRows(w.versions[hi]) <= BypassRows(w.versions[lo])
    ensures BypassRows(w.versions[hi]) == BypassRows(w.versions[lo]) <==>
      forall i: nat :: lo <= i < hi ==> !Demotes(w.versions[i], w.commits[i])
    decreases hi - lo
  {
    if lo == hi {
    } else {
      QuietCommitsShrink(w, lo, hi - 1);
      assert VersionOk(w, hi - 1);
      CommitEffect(w.versions[hi - 1], w.commits[hi - 1]);
    }
  }

  /** Where no call was overtaken, the set holds every bypass row, and it is exact if and
      only if no Inspect insert demoted one since. */
  lemma OrderlyCallsCover(rows: Table, w: World)
    requires Reachable(Start(rows), Next, w) && Shaped(w) && !Overtaken(w)
    ensures Covers(Now(w))
    ensures Exact(Now(w)) <==>
      forall i: nat :: w.shown <= i < |w.commits| ==> !Demotes(w.versions[i], w.commits[i])
  {
    ReachableIsSound(rows, w);
    forall i: nat | w.shown <= i < |w.commits| ensures !Refreshes(w.versions[i], w.commits[i]) {
      assert !OvertakenAt(w, i);
    }
    QuietCommitsShrink(w, w.shown, |w.commits|);
  }

  /** A bypass row that the set misses was made by a call that was overtaken. */
  lemma MissedRowsWereOvertaken(rows: Table, w: World, d: string) returns (i: nat)
    requires Reachable(Start(rows), Next, w) && Shaped(w)
    requires d in BypassRows(Last(w)) && d !in w.cache
    ensures OvertakenAt(w, i) && Promotes(w.commits[i], d)
  {
    ReachableIsSound(rows, w);
    i := LastPromotion(w, w.shown, |w.commits|, d);
  }

  lemma {:induction false} LastPromotion(w: World, lo: nat, hi: nat, d: string) returns (i: nat)
    requires Sound(w) && lo <= hi <= |w.commits|
    requires d !in BypassRows(w.versions[lo]) && d in BypassRows(w.versions[hi])
    ensures lo <= i < hi && Promotes(w.commits[i], d) && Refreshes(w.versions[i], w.commits[i])
    decreases hi - lo
  {
    assert VersionOk(w, hi - 1);
    if d in BypassRows(w.versions[hi - 1]) {
      i := LastPromotion(w, lo, hi - 1, d);
    } else {
      i := hi - 1;
      PromotionEffect(w.versions[i], w.commits[i], d);
    }
  }

  // ----- calls that do not overlap -----

  /** A call starts only when none is in flight. */
  ghost predicate SerialNext(w: World, v: World) {
    exists step :: Enabled(w, step) && (step.Commits? ==> Quiet(w)) && v == Apply(w, step)
  }

  /** At most one call is in flight, and nothing after what it selected refreshes. */
  ghost predicate Orderly(w: World) {
    && Sound(w)
    && (forall k, l :: k in w.calls && l in w.calls ==> k == l)
    && (Quiet(w) ==> !Overtaken(w))
    && (forall k, i: nat :: k in w.calls && w.calls[k].Selected? && w.calls[k].at <= i < |w.commits| ==>
          !Refreshes(w.versions[i], w.commits[i]))
  }

  lemma SerialStepKeepsOrder(w: World, step: Step)
    requires Orderly(w) && Enabled(w, step) && (step.Commits? ==> Quiet(w))
    ensures Orderly(Apply(w, step))
  {
    StepKeepsSound(w, step);
    var v := Apply(w, step);
    match step
    case Commits(c) =>
      if Refreshes(Last(w), c) {
        assert w.issued in v.calls;
      } else {
        forall i: nat ensures !OvertakenAt(v, i) {
          assert !OvertakenAt(w, i);
        }
      }
    case Selects(k) => assert k in v.calls;
    case Publishes(k) =>
      assert v.calls == map[];
      forall i: nat ensures !OvertakenAt(v, i) {
      }
  }

  /** When calls follow one another, the set holds every bypass row between them. */
  lemma SerialCallsCover(rows: Table, w: World)
    requires Reachable(Start(rows), SerialNext, w) && Quiet(w)
    ensures Shaped(w) && Covers(Now(w))
    ensures Exact(Now(w)) <==>
      forall i: nat :: w.shown <= i < |w.commits| ==> !Demotes(w.versions[i], w.commits[i])
  {
    forall a, b | Orderly(a) && SerialNext(a, b) ensures Orderly(b) {
      var step :| Enabled(a, step) && (step.Commits? ==> Quiet(a)) && b == Apply(a, step);
      SerialStepKeepsOrder(a, step);
    }
    forall i: nat ensures !OvertakenAt(Start(rows), i) {
    }
    ReachableKeeps(Start(rows), SerialNext, Orderly, w);
    forall i: nat | w.shown <= i < |w.commits| ensures !Refreshes(w.versions[i], w.commits[i]) {
      assert !OvertakenAt(w, i);
    }
    QuietCommitsShrink(w, w.shown, |w.commits|);
  }

  // ----- the race -----

  lemma Take(rows: Table, w: World, step: Step) returns (v: World)
    requires Reachable(Start(rows), Next, w) && Enabled(w, step)
    ensures v == Apply(w, step) && Reachable(Start(rows), Next, v) && Sound(v)
  {
    v := Apply(w, step);
    assert Next(w, v);
    StepIsReachable(Start(rows), Next, w, v);
    ReachableIsSound(rows, v);
  }

  /** From any quiet state, two calls that overlap lose a row: one deletes `x` and selects,
      the other inserts `d` as Bypass, selects and publishes, then the first publishes. Both
      have returned, `d` is a bypass row, and the set does not hold it. */
  lemma OverlappingCallsLoseARow(rows: Table, w: World, x: string, d: string) returns (v: World)
    requires Reachable(Start(rows), Next, w) && Shaped(w) && Quiet(w) && x != d
    requires !IsSystem(Last(w), x) && !IsSystem(Last(w), d) && d !in BypassRows(Last(w))
    ensures Reachable(Start(rows), Next, v) && Shaped(v) && Quiet(v)
    ensures d in BypassRows(Last(v)) && d !in v.cache && !Covers(Now(v))
  {
    var a, b := w.issued, w.issued + 1;
    v := Take(rows, w, Commits(Delete(x)));
    v := Take(rows, v, Selects(a));
    ghost var old' := v.calls[a].rows;
    assert d !in old';
    v := Take(rows, v, Commits(Insert(d, Bypass)));
    assert v.calls[a] == Selected(old', |w.commits| + 1);
    v := Take(rows, v, Selects(b));
    v := Take(rows, v, Publishes(b));
    v := Take(rows, v, Publishes(a));
    assert d in BypassRows(Last(v));
    assert v.calls == map[];
  }

  /** It can happen: the start is such a state. */
  lemma RaceIsReachable() returns (v: World)
    ensures Reachable(Start(map[]), Next, v) && Shaped(v) && Quiet(v) && !Covers(Now(v))
  {
    StartIsReachable(Start(map[]), Next);
    v := OverlappingCallsLoseARow(map[], Start(map[]), "x", "d");
  }

  /** Any later refreshing call that runs alone makes the set exact again. */
  lemma NextCallHeals(rows: Table, w: World, c: Commit) returns (v: World)
    requires Reachable(Start(rows), Next, w) && Shaped(w) && Quiet(w) && Refreshes(Last(w), c)
    ensures Reachable(Start(rows), Next, v) && Shaped(v) && Quiet(v)
    ensures Last(v) == Committed(Last(w), c) && Exact(Now(v))
  {
    v := Take(rows, w, Commits(c));
    v := Take(rows, v, Selects(w.issued));
    v := Take(rows, v, Publishes(w.issued));
    assert v.calls == map[];
  }

  // ----- system rows -----

  /** In every interleaving a system row is never removed or made a user's row, and only
      seeding can change its mode. */
  lemma {:induction false} SystemRowsStay(rows: Table, w: World, i: nat, j: nat, domain: string)
    requires Reachable(Start(rows), Next, w) && i <= j < |w.versions| && IsSystem(w.versions[i], domain)
    ensures Shaped(w) && IsSystem(w.versions[j], domain)
    ensures (forall k :: i <= k < j ==> !w.commits[k].SeedSystem?) ==> w.versions[j][domain] == w.versions[i][domain]
    decreases j - i
  {
    ReachableIsSound(rows, w);
    if i == j {
    } else {
      SystemRowsStay(rows, w, i, j - 1, domain);
      assert VersionOk(w, j - 1);
      CommitKeepsSystem(w.versions[j - 1], w.commits[j - 1], domain);
    }
  }

  lemma CommitKeepsSystem(t: Table, c: Commit, domain: string)
    requires IsSystem(t, domain)
    ensures IsSystem(Committed(t, c), domain)
    ensures !c.SeedSystem? ==> Committed(t, c)[domain] == t[domain]
  {
    if c.SeedSystem? {
      AllowedKeepsSystem(t, c.allow, domain);
      BypassedKeepsSystem(SystemAllowed(t, c.allow), c.bypass, domain);
    }
  }
}
