/** The domain allowlist table and the in-memory bypass set over it:
    crates/nilbox-core/src/config_store.rs. */
module Allowlist {
  import opened Bytes
  import opened Runs

  datatype Mode = Inspect | Bypass

  datatype Row = Row(mode: Mode, isSystem: bool)

  type Table = map<string, Row>

  function BypassRows(t: Table): set<string> { set d | d in t && t[d].mode == Bypass }

  // ----- parent domains -----

  /** The suffixes after each dot that still contain a dot, longest first. */
  method ParentDomains(domain: string) returns (result: seq<string>)
    ensures result == Parents(domain)
  {
    result := [];
    var rest := domain;
    while '.' in rest
      invariant result + Parents(rest) == Parents(domain)
      decreases |rest|
    {
      FirstDotIn(rest);
      var next := rest[FirstDot(rest) + 1..];
      assert Parents(rest) == (if '.' in next then [next] else []) + Parents(next);
      rest := next;
      if '.' in rest {
        ConcatAssoc(result, [rest], Parents(rest));
        result := result + [rest];
      } else {
        assert [] + Parents(rest) == Parents(rest);
      }
    }
    assert result + [] == result;
  }

  function FirstDot(s: string): nat { if s == [] || s[0] == '.' then 0 else 1 + FirstDot(s[1..]) }

  lemma {:induction false} FirstDotIn(s: string)
    requires '.' in s
    ensures FirstDot(s) < |s| && s[FirstDot(s)] == '.' && '.' !in s[..FirstDot(s)]
  {
    if s[0] == '.' {
    } else {
      assert s == [s[0]] + s[1..];
      FirstDotIn(s[1..]);
      assert s[..FirstDot(s)] == [s[0]] + s[1..][..FirstDot(s[1..])];
    }
  }

  function Parents(s: string): seq<string>
    decreases |s|
  {
    if '.' !in s then []
    else
      FirstDotIn(s);
      var rest := s[FirstDot(s) + 1..];
      (if '.' in rest then [rest] else []) + Parents(rest)
  }

  /** `d` is a dotted proper suffix of `s` at a label boundary. */
  ghost predicate DottedSuffix(s: string, d: string) {
    '.' in d && |d| < |s| && s[|s| - |d| - 1] == '.' && s[|s| - |d|..] == d
  }

  /** The list holds exactly the dotted suffixes at label boundaries. */
  lemma {:induction false} ParentsAreSuffixes(s: string, d: string)
    ensures d in Parents(s) <==> DottedSuffix(s, d)
    decreases |s|
  {
    if '.' !in s {
      NoDotNoSuffix(s, d);
    } else {
      FirstDotIn(s);
      var pos := FirstDot(s);
      ParentsAreSuffixes(s[pos + 1..], d);
      FirstSuffix(s, pos, d);
      FirstParent(s, d);
    }
  }

  lemma FirstParent(s: string, d: string)
    requires '.' in s
    ensures FirstDot(s) < |s|
    ensures var rest := s[FirstDot(s) + 1..]; d in Parents(s) <==> (d == rest && '.' in d) || d in Parents(rest)
  {
    FirstDotIn(s);
  }

  lemma NoDotNoSuffix(s: string, d: string)
    requires '.' !in s
    ensures !DottedSuffix(s, d)
  {
    assert forall i :: 0 <= i < |s| ==> s[i] in s;
  }

  /** A dotted suffix is what follows the first dot, if that has a dot, or one of its own. */
  lemma FirstSuffix(s: string, pos: nat, d: string)
    requires pos < |s| && s[pos] == '.' && '.' !in s[..pos]
    ensures DottedSuffix(s, d) <==> (d == s[pos + 1..] && '.' in d) || DottedSuffix(s[pos + 1..], d)
  {
    if d != s[pos + 1..] {
      SuffixOfRest(s, pos, d);
    }
  }

  lemma SuffixOfRest(s: string, pos: nat, d: string)
    requires pos < |s| && s[pos] == '.' && '.' !in s[..pos] && d != s[pos + 1..]
    ensures DottedSuffix(s, d) <==> DottedSuffix(s[pos + 1..], d)
  {
    var rest := s[pos + 1..];
    if DottedSuffix(s, d) {
      assert forall i :: 0 <= i < pos ==> s[i] in s[..pos];
      assert |s| - |d| - 1 != pos;
      assert rest[|rest| - |d|..] == s[|s| - |d|..];
    }
    if DottedSuffix(rest, d) {
      assert rest[|rest| - |d|..] == s[|s| - |d|..];
    }
  }

  /** Longest first. */
  lemma {:induction false} ParentsShrink(s: string)
    ensures forall i :: 0 <= i < |Parents(s)| ==> |Parents(s)[i]| < |s|
    ensures forall i, j :: 0 <= i < j < |Parents(s)| ==> |Parents(s)[j]| < |Parents(s)[i]|
    decreases |s|
  {
    if '.' !in s {
    } else {
      FirstDotIn(s);
      ParentsShrink(s[FirstDot(s) + 1..]);
    }
  }

  // ----- the store -----

  /** The table and the in-memory set. */
  datatype Store = Store(table: Table, cache: set<string>)

  /** The set never misses a bypass row. */
  ghost predicate Covers(s: Store) { BypassRows(s.table) <= s.cache }

  ghost predicate Exact(s: Store) { s.cache == BypassRows(s.table) }

  class ConfigStore {
    var table: Table
    var bypassCache: set<string>

    ghost function View(): Store
      reads this
    {
      Store(table, bypassCache)
    }

    constructor Open(rows: Table)
      ensures View() == Refreshed(rows)
    {
      table := rows;
      bypassCache := BypassRows(rows);
    }

    method RefreshBypassCache()
      modifies this`bypassCache
      ensures View() == Refreshed(table)
    {
      bypassCache := BypassRows(table);
    }

    /** A user insert. System rows keep their mode; the set is refreshed only for Bypass. */
    method Insert(domain: string, mode: Mode)
      modifies this
      ensures View() == Apply(old(View()), Inserting(domain, mode))
    {
      if domain !in table {
        table := table[domain := Row(mode, false)];
      } else if !table[domain].isSystem {
        table := table[domain := table[domain].(mode := mode)];
      }
      if mode == Bypass {
        RefreshBypassCache();
      }
    }

    /** Refused for system rows. */
    method Delete(domain: string) returns (ok: bool)
      modifies this
      ensures ok <==> !(domain in old(table) && old(table)[domain].isSystem)
      ensures View() == Apply(old(View()), Deleting(domain))
    {
      if domain in table && table[domain].isSystem {
        return false;
      }
      table := table - {domain};
      RefreshBypassCache();
      ok := true;
    }

    /** Seeding on start-up: defaults into a table without user rows, then the system rows. */
    method Seed(defaults: seq<string>, allow: seq<string>, bypass: seq<string>)
      modifies this
      ensures View() == Apply(old(View()), Seeding(defaults, allow, bypass))
    {
      if forall d :: d in table ==> table[d].isSystem {
        for i := 0 to |defaults|
          invariant table == InsertedAll(old(table), defaults[..i])
        {
          Insert(defaults[i], Inspect);
          assert defaults[..i + 1][..i] == defaults[..i];
        }
        assert defaults[..|defaults|] == defaults;
      }
      ghost var mid := table;
      for i := 0 to |allow|
        invariant table == SystemAllowed(mid, allow[..i])
      {
        table := MarkSystem(table, allow[i]);
        assert allow[..i + 1][..i] == allow[..i];
      }
      assert allow[..|allow|] == allow;
      ghost var late := table;
      for i := 0 to |bypass|
        invariant table == SystemBypassed(late, bypass[..i])
      {
        table := MarkBypass(table, bypass[i]);
        assert bypass[..i + 1][..i] == bypass[..i];
      }
      assert bypass[..|bypass|] == bypass;
      RefreshBypassCache();
    }

    /** True if the domain or one of its dotted parents is in the set. */
    method IsBypass(domain: string) returns (r: bool)
      ensures r <==> domain in bypassCache || exists d :: DottedSuffix(domain, d) && d in bypassCache
    {
      var parents := ParentDomains(domain);
      if domain in bypassCache {
        return true;
      }
      var i := 0;
      while i < |parents|
        invariant 0 <= i <= |parents| && forall j :: 0 <= j < i ==> parents[j] !in bypassCache
      {
        if parents[i] in bypassCache {
          ParentsAreSuffixes(domain, parents[i]);
          return true;
        }
        i := i + 1;
      }
      forall d | DottedSuffix(domain, d) ensures d !in bypassCache {
        ParentsAreSuffixes(domain, d);
      }
      r := false;
    }

    /** The row of the longest stored name among the domain and its dotted parents. */
    method GetEntry(domain: string) returns (entry: Option<(string, Row)>)
      ensures entry.Some? ==>
        var (name, row) := entry.value;
        && Candidate(domain, name) && name in table && row == table[name]
        && forall d :: Candidate(domain, d) && d in table ==> |d| <= |name|
      ensures entry.None? ==> forall d :: Candidate(domain, d) ==> d !in table
    {
      var parents := ParentDomains(domain);
      var candidates := [domain] + parents;
      ParentsShrink(domain);
      forall d ensures Candidate(domain, d) <==> d in candidates {
        ParentsAreSuffixes(domain, d);
      }
      var i := 0;
      while i < |candidates|
        invariant 0 <= i <= |candidates| && forall j :: 0 <= j < i ==> candidates[j] !in table
      {
        if candidates[i] in table {
          assert candidates[i] in candidates;
          forall d | Candidate(domain, d) && d in table ensures |d| <= |candidates[i]| {
            var j :| 0 <= j < |candidates| && candidates[j] == d;
            assert i <= j;
          }
          return Some((candidates[i], table[candidates[i]]));
        }
        i := i + 1;
      }
      entry := None;
    }
  }

  ghost predicate Candidate(domain: string, d: string) { d == domain || DottedSuffix(domain, d) }

  function Inserted(t: Table, domain: string, mode: Mode): Table {
    if domain !in t then t[domain := Row(mode, false)]
    else if t[domain].isSystem then t
    else t[domain := t[domain].(mode := mode)]
  }

  function InsertedAll(t: Table, domains: seq<string>): Table {
    if domains == [] then t else Inserted(InsertedAll(t, domains[..|domains| - 1]), domains[|domains| - 1], Inspect)
  }

  /** INSERT OR IGNORE as a system row, then set the flag. */
  function MarkSystem(t: Table, domain: string): Table {
    if domain in t then t[domain := t[domain].(isSystem := true)] else t[domain := Row(Inspect, true)]
  }

  /** INSERT OR IGNORE as a system bypass row, then set the mode of system rows. */
  function MarkBypass(t: Table, domain: string): Table {
    if domain !in t || t[domain].isSystem then t[domain := Row(Bypass, true)] else t
  }

  function SystemAllowed(t: Table, domains: seq<string>): Table {
    if domains == [] then t else MarkSystem(SystemAllowed(t, domains[..|domains| - 1]), domains[|domains| - 1])
  }

  function SystemBypassed(t: Table, domains: seq<string>): Table {
    if domains == [] then t else MarkBypass(SystemBypassed(t, domains[..|domains| - 1]), domains[|domains| - 1])
  }

  function Seeded(t: Table, defaults: seq<string>, allow: seq<string>, bypass: seq<string>): Table {
    var a := if forall d :: d in t ==> t[d].isSystem then InsertedAll(t, defaults) else t;
    SystemBypassed(SystemAllowed(a, allow), bypass)
  }

  // ----- calls made one after another -----

  datatype Op =
    | Inserting(domain: string, mode: Mode)
    | Deleting(domain: string)
    | Seeding(defaults: seq<string>, allow: seq<string>, bypass: seq<string>)

  function Refreshed(t: Table): Store { Store(t, BypassRows(t)) }

  function Apply(s: Store, op: Op): Store {
    match op
    case Inserting(domain, mode) =>
      var t := Inserted(s.table, domain, mode);
      if mode == Bypass then Refreshed(t) else s.(table := t)
    case Deleting(domain) =>
      if domain in s.table && s.table[domain].isSystem then s else Refreshed(s.table - {domain})
    case Seeding(defaults, allow, bypass) => Refreshed(Seeded(s.table, defaults, allow, bypass))
  }

  /** The set stays exact after every operation but one: an Inspect insert over a user's
      bypass row leaves it too large, and nothing else does. */
  lemma ExactUnlessDemoted(s: Store, op: Op)
    requires Exact(s)
    ensures Covers(Apply(s, op))
    ensures Exact(Apply(s, op)) <==>
      !(op.Inserting? && op.mode == Inspect && op.domain in s.table && s.table[op.domain] == Row(Bypass, false))
  {
    if op.Inserting? && op.mode == Inspect {
      var t := Inserted(s.table, op.domain, Inspect);
      assert op.domain in BypassRows(s.table) <==> op.domain in s.table && s.table[op.domain].mode == Bypass;
      assert op.domain in BypassRows(t) <==> t[op.domain].mode == Bypass;
    }
  }

  ghost predicate Next(s: Store, t: Store) { exists op :: t == Apply(s, op) }

  lemma OpCovers(s: Store, op: Op)
    requires Covers(s)
    ensures Covers(Apply(s, op))
  {
    if op.Inserting? && op.mode == Inspect {
      InspectShrinks(s.table, op.domain);
    }
  }

  /** As long as calls do not overlap, the set contains every bypass row after each of them.
      `AllowlistRaces` says what overlapping calls do. */
  lemma SetCoversRows(rows: Table, s: Store)
    requires Reachable(Refreshed(rows), Next, s)
    ensures Covers(s)
  {
    forall a, b | Covers(a) && Next(a, b) ensures Covers(b) {
      var op :| b == Apply(a, op);
      OpCovers(a, op);
    }
    ReachableKeeps(Refreshed(rows), Next, Covers, s);
  }

  /** Whatever the set was, it equals the bypass rows right after seeding, an accepted delete
      and a Bypass insert. */
  lemma RefreshingCallsAreExact(s: Store, op: Op)
    requires op.Seeding? || (op.Inserting? && op.mode == Bypass)
      || (op.Deleting? && !(op.domain in s.table && s.table[op.domain].isSystem))
    ensures Exact(Apply(s, op))
  {
  }

  lemma InspectShrinks(t: Table, domain: string)
    ensures BypassRows(Inserted(t, domain, Inspect)) <= BypassRows(t)
  {
  }

  lemma {:induction false} AllowedKeepsSystem(t: Table, domains: seq<string>, domain: string)
    requires domain in t && t[domain].isSystem
    ensures domain in SystemAllowed(t, domains) && SystemAllowed(t, domains)[domain] == t[domain]
  {
    if domains == [] {
    } else {
      AllowedKeepsSystem(t, domains[..|domains| - 1], domain);
    }
  }

  lemma {:induction false} BypassedKeepsSystem(t: Table, domains: seq<string>, domain: string)
    requires domain in t && t[domain].isSystem
    ensures domain in SystemBypassed(t, domains) && SystemBypassed(t, domains)[domain].isSystem
  {
    if domains == [] {
    } else {
      BypassedKeepsSystem(t, domains[..|domains| - 1], domain);
    }
  }

  // ----- name by name -----

  function RowOf(t: Table, d: string): Option<Row> { if d in t then Some(t[d]) else None }

  lemma {:induction false} InsertedAllAt(t: Table, domains: seq<string>, d: string)
    ensures RowOf(InsertedAll(t, domains), d) ==
      if d !in domains then RowOf(t, d)
      else if d !in t then Some(Row(Inspect, false))
      else if t[d].isSystem then Some(t[d])
      else Some(Row(Inspect, false))
  {
    if domains == [] {
    } else {
      var front := domains[..|domains| - 1];
      assert domains == front + [domains[|domains| - 1]];
      InsertedAllAt(t, front, d);
    }
  }

  lemma {:induction false} AllowedAt(t: Table, domains: seq<string>, d: string)
    ensures RowOf(SystemAllowed(t, domains), d) ==
      if d !in domains then RowOf(t, d)
      else Some(Row(if d in t then t[d].mode else Inspect, true))
  {
    if domains == [] {
    } else {
      var front := domains[..|domains| - 1];
      assert domains == front + [domains[|domains| - 1]];
      AllowedAt(t, front, d);
    }
  }

  lemma {:induction false} BypassedAt(t: Table, domains: seq<string>, d: string)
    ensures RowOf(SystemBypassed(t, domains), d) ==
      if d !in domains || (d in t && !t[d].isSystem) then RowOf(t, d) else Some(Row(Bypass, true))
  {
    if domains == [] {
    } else {
      var front := domains[..|domains| - 1];
      assert domains == front + [domains[|domains| - 1]];
      BypassedAt(t, front, d);
    }
  }

  /** What seeding leaves, name by name. Rows stay; a default is added where there were no user
      rows; the names of the two system lists are added; names on the first list become system
      rows and keep their mode; names on the second become Bypass, but not where the user has
      the row and the first list does not name it. */
  lemma SeededAt(t: Table, defaults: seq<string>, allow: seq<string>, bypass: seq<string>, d: string)
    ensures var row := RowOf(Seeded(t, defaults, allow, bypass), d);
      var noUserRows := forall x :: x in t ==> t[x].isSystem;
      var users := if d in t then !t[d].isSystem else noUserRows && d in defaults;
      && (row.Some? <==> d in t || (noUserRows && d in defaults) || d in allow || d in bypass)
      && (row.Some? ==> (row.value.isSystem <==> d in allow || !users))
      && (row.Some? ==> (row.value.mode == Bypass <==>
            (d in bypass && row.value.isSystem) || (d in t && t[d].mode == Bypass)))
  {
    var a := if forall x :: x in t ==> t[x].isSystem then InsertedAll(t, defaults) else t;
    InsertedAllAt(t, defaults, d);
    AllowedAt(a, allow, d);
    BypassedAt(SystemAllowed(a, allow), bypass, d);
  }

  /** What an insert and a delete leave, name by name. */
  lemma TableAt(s: Store, op: Op, d: string)
    requires op.Inserting? || op.Deleting?
    ensures var row := RowOf(Apply(s, op).table, d);
      && (d != op.domain || IsSystemRow(s.table, d) ==> row == RowOf(s.table, d))
      && (d == op.domain && !IsSystemRow(s.table, d) ==>
            row == if op.Inserting? then Some(Row(op.mode, false)) else None)
  {
  }

  predicate IsSystemRow(t: Table, d: string) { d in t && t[d].isSystem }
}
