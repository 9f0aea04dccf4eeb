/** The diff of the current rows against the stored state: the lines each
    campaign gets, and the state to save afterwards. */
module Diff {
  import opened Wrappers
  import opened Rows
  import opened Spend
  import Text

  /** One spend line: stripped sub-ids, old and new cost, their delta and the
      percentage change, all in the units of Spend. */
  datatype SpendLine = SpendLine(sub5: string, sub4: string, oldCost: int, nowCost: int, delta: int, pct: nat)

  /** One reg (leads) or dep (sales) line: stripped sub-ids, old and new count. */
  datatype CountLine = CountLine(sub5: string, sub4: string, oldCount: int, nowCount: int)

  /** The three sections of one campaign, each in row order. */
  datatype Sections = Sections(spend: seq<SpendLine>, regs: seq<CountLine>, deps: seq<CountLine>)

  /** One campaign's entry in the grouped changes. */
  datatype Group = Group(campaign: string, sections: Sections)

  /** The grouped changes, in the order their campaign first got a line, and
      the merged state to save. */
  datatype DiffResult = DiffResult(changes: seq<Group>, newState: State)

  const NoSections: Sections := Sections([], [], [])

  predicate HasLines(s: Sections) {
    s.spend != [] || s.regs != [] || s.deps != []
  }

  function Concat(a: Sections, b: Sections): Sections {
    Sections(a.spend + b.spend, a.regs + b.regs, a.deps + b.deps)
  }

  /** The campaign a row is grouped under: its stripped campaign text (the
      state key, by contrast, uses the raw text). */
  function GroupName(r: Row): string {
    Text.Strip(FieldText(r.campaign))
  }

  function Sub5(r: Row): string { Text.Strip(FieldText(r.subId5)) }
  function Sub4(r: Row): string { Text.Strip(FieldText(r.subId4)) }

  /** The spend line a row contributes, compared with the record stored
      under its key before this run. */
  function SpendLineFor(prev: State, cfg: Config, r: Row): Option<SpendLine> {
    var k := KeyForState(r);
    if k in prev && SpendFires(cfg, prev[k].cost, r.cost) then
      Some(SpendLine(Sub5(r), Sub4(r), prev[k].cost, r.cost, r.cost - prev[k].cost, Pct(prev[k].cost, r.cost)))
    else None
  }

  /** The reg line a row contributes: on any change of leads, either way. */
  function RegLineFor(prev: State, r: Row): Option<CountLine> {
    var k := KeyForState(r);
    if k in prev && r.leads != prev[k].leads then
      Some(CountLine(Sub5(r), Sub4(r), prev[k].leads, r.leads))
    else None
  }

  /** The dep line a row contributes: on any change of sales, either way. */
  function DepLineFor(prev: State, r: Row): Option<CountLine> {
    var k := KeyForState(r);
    if k in prev && r.sales != prev[k].sales then
      Some(CountLine(Sub5(r), Sub4(r), prev[k].sales, r.sales))
    else None
  }

  function AsSeq<T>(o: Option<T>): seq<T> {
    match o
    case Some(v) => [v]
    case None => []
  }

  /** Everything one row contributes to its campaign. */
  function RowLines(prev: State, cfg: Config, r: Row): Sections {
    Sections(AsSeq(SpendLineFor(prev, cfg, r)), AsSeq(RegLineFor(prev, r)), AsSeq(DepLineFor(prev, r)))
  }

  /** No campaign appears twice. */
  predicate Distinct(gs: seq<Group>) {
    forall i, j :: 0 <= i < j < |gs| ==> gs[i].campaign != gs[j].campaign
  }

  /** The shape of the grouped changes: distinct campaigns, each with at
      least one line (a campaign is only entered when a line is appended). */
  predicate WellFormed(gs: seq<Group>) {
    Distinct(gs) && forall i :: 0 <= i < |gs| ==> HasLines(gs[i].sections)
  }

  predicate HasCampaign(gs: seq<Group>, c: string) {
    exists i :: 0 <= i < |gs| && gs[i].campaign == c
  }

  /** The sections listed for campaign `c`, or none. */
  function SectionsFor(gs: seq<Group>, c: string): Sections {
    if gs == [] then NoSections
    else if gs[0].campaign == c then gs[0].sections
    else SectionsFor(gs[1..], c)
  }

  lemma {:induction false} SectionsForAt(gs: seq<Group>, i: nat)
    requires Distinct(gs) && i < |gs|
    ensures SectionsFor(gs, gs[i].campaign) == gs[i].sections
    decreases i
  {
    if i > 0 {
      SectionsForAt(gs[1..], i - 1);
    }
  }

  lemma {:induction false} SectionsForAbsent(gs: seq<Group>, c: string)
    requires !HasCampaign(gs, c)
    ensures SectionsFor(gs, c) == NoSections
    decreases |gs|
  {
    if gs != [] {
      assert gs[0].campaign != c;
      assert !HasCampaign(gs[1..], c) by {
        forall i | 0 <= i < |gs[1..]| ensures gs[1..][i].campaign != c {
          assert gs[1..][i] == gs[i + 1];
        }
      }
      SectionsForAbsent(gs[1..], c);
    }
  }

  /** Where campaign `c` sits, if anywhere. */
  function IndexOf(gs: seq<Group>, c: string): (o: Option<nat>)
    ensures o.Some? ==> o.value < |gs| && gs[o.value].campaign == c
    ensures o.None? ==> !HasCampaign(gs, c)
  {
    if gs == [] then None
    else if gs[0].campaign == c then Some(0)
    else match IndexOf(gs[1..], c)
      case Some(i) => Some(i + 1)
      case None =>
        assert forall i :: 1 <= i < |gs| ==> gs[i] == gs[1..][i - 1];
        None
  }

  /** `out[c]["spend"].append(...)` and friends: the row's lines go to the
      end of campaign `c`'s entry, and `c` is entered, at the end, only when
      it was absent and a line is actually appended. */
  function AddLines(out: seq<Group>, c: string, s: Sections): (r: seq<Group>)
    requires WellFormed(out)
    ensures WellFormed(r)
    ensures |out| <= |r| && forall i :: 0 <= i < |out| ==> r[i].campaign == out[i].campaign
    ensures r == [] <==> out == [] && !HasLines(s)
    ensures !HasLines(s) ==> r == out
    ensures HasLines(s) ==> HasCampaign(r, c)
  {
    if !HasLines(s) then out
    else
      match IndexOf(out, c)
      case Some(i) =>
        var r := out[i := Group(c, Concat(out[i].sections, s))];
        assert r[i].campaign == c;
        r
      case None =>
        var r := out + [Group(c, s)];
        assert r[|out|].campaign == c;
        r
  }

  /** After AddLines, campaign `c` lists its old sections followed by the
      new lines, and every other campaign lists what it listed before. */
  lemma AddLinesSections(out: seq<Group>, c: string, s: Sections, d: string)
    requires WellFormed(out)
    ensures SectionsFor(AddLines(out, c, s), d) == if d == c then Concat(SectionsFor(out, d), s) else SectionsFor(out, d)
  {
    var r := AddLines(out, c, s);
    if !HasLines(s) {
      var x := SectionsFor(out, d);
      assert x.spend + [] == x.spend && x.regs + [] == x.regs && x.deps + [] == x.deps;
    } else if HasCampaign(out, d) {
      var j :| 0 <= j < |out| && out[j].campaign == d;
      SectionsForAt(out, j);
      SectionsForAt(r, j);
    } else {
      SectionsForAbsent(out, d);
      if d == c {
        SectionsForAt(r, |out|);
        assert [] + s.spend == s.spend && [] + s.regs == s.regs && [] + s.deps == s.deps;
      } else {
        SectionsForAbsent(r, d);
      }
    }
  }

  /** AddLines enters campaign `c` when it brings a line, at the end when
      `c` was absent, and leaves the set of other campaigns alone. */
  lemma AddLinesCampaigns(out: seq<Group>, c: string, s: Sections)
    requires WellFormed(out)
    ensures forall d :: HasCampaign(AddLines(out, c, s), d) <==> HasCampaign(out, d) || (d == c && HasLines(s))
    ensures !HasCampaign(out, c) && HasLines(s) ==> AddLines(out, c, s) == out + [Group(c, s)]
    ensures HasCampaign(out, c) || !HasLines(s) ==> |AddLines(out, c, s)| == |out|
  {
    var r := AddLines(out, c, s);
    forall d ensures HasCampaign(r, d) <==> HasCampaign(out, d) || (d == c && HasLines(s)) {
      if HasCampaign(out, d) {
        var j :| 0 <= j < |out| && out[j].campaign == d;
        assert r[j].campaign == d;
      }
      if HasCampaign(r, d) {
        var j :| 0 <= j < |r| && r[j].campaign == d;
        if j < |out| {
          assert out[j].campaign == d;
        }
      }
      if d == c && HasLines(s) && !HasCampaign(out, c) {
        assert r == out + [Group(c, s)];
        assert r[|out|].campaign == c;
      }
    }
  }

  /** `detect_changes`: every row is compared with the state as it was
      before the run (not with an earlier row of the same run); its lines go
      to its campaign, and its values overwrite its key in the new state. */
  function DetectChanges(prev: State, rows: seq<Row>, cfg: Config): (d: DiffResult)
    ensures WellFormed(d.changes)
    ensures d.newState.Keys == prev.Keys + KeysOf(rows)
    decreases |rows|
  {
    if rows == [] then DiffResult([], prev)
    else
      var before := DetectChanges(prev, rows[..|rows| - 1], cfg);
      var r := rows[|rows| - 1];
      DiffResult(AddLines(before.changes, GroupName(r), RowLines(prev, cfg, r)),
                 before.newState[KeyForState(r) := StoredOf(r)])
  }
}
