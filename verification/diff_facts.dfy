/** What the diff promises about its output, stated against a per-campaign
    reference and proved for all inputs. */
module DiffFacts {
  import opened Wrappers
  import opened Rows
  import opened Spend
  import opened Diff

  /** Reference definition of one campaign's sections: the lines of the rows
      grouped under `c`, taken in row order. */
  function Collect(prev: State, cfg: Config, rows: seq<Row>, c: string): Sections
    decreases |rows|
  {
    if rows == [] then NoSections
    else
      var r := rows[|rows| - 1];
      Concat(Collect(prev, cfg, rows[..|rows| - 1], c), if GroupName(r) == c then RowLines(prev, cfg, r) else NoSections)
  }

  lemma ConcatNone(x: Sections)
    ensures Concat(x, NoSections) == x
  {
    assert x.spend + [] == x.spend && x.regs + [] == x.regs && x.deps + [] == x.deps;
  }

  /** The grouped changes list, for every campaign, exactly the reference
      sections. */
  lemma {:induction false} ChangesMatchCollect(prev: State, rows: seq<Row>, cfg: Config, c: string)
    ensures SectionsFor(DetectChanges(prev, rows, cfg).changes, c) == Collect(prev, cfg, rows, c)
    decreases |rows|
  {
    if rows != [] {
      var init := rows[..|rows| - 1];
      var r := rows[|rows| - 1];
      var before := DetectChanges(prev, init, cfg).changes;
      ChangesMatchCollect(prev, init, cfg, c);
      AddLinesSections(before, GroupName(r), RowLines(prev, cfg, r), c);
      ConcatNone(Collect(prev, cfg, init, c));
    }
  }

  /** The items `f` gives for each row, in row order. */
  function Gather<L>(rows: seq<Row>, f: Row -> seq<L>): seq<L>
    decreases |rows|
  {
    if rows == [] then [] else Gather(rows[..|rows| - 1], f) + f(rows[|rows| - 1])
  }

  lemma {:induction false} GatherMembers<L>(rows: seq<Row>, f: Row -> seq<L>, l: L)
    ensures l in Gather(rows, f) <==> exists n :: 0 <= n < |rows| && l in f(rows[n])
    decreases |rows|
  {
    if rows != [] {
      var last := |rows| - 1;
      var init := rows[..last];
      GatherMembers(init, f, l);
      assert Gather(rows, f) == Gather(init, f) + f(rows[last]);
      if l in Gather(init, f) {
        var n :| 0 <= n < |init| && l in f(init[n]);
        assert rows[n] == init[n];
        assert l in f(rows[n]);
      }
      if exists n :: 0 <= n < |rows| && l in f(rows[n]) {
        var n :| 0 <= n < |rows| && l in f(rows[n]);
        if n < last {
          assert rows[n] == init[n];
          assert l in Gather(init, f);
        }
      }
    }
  }

  /** What one row contributes to campaign `c`'s spend, reg and dep sections. */
  function SpendOf(prev: State, cfg: Config, c: string): Row -> seq<SpendLine> {
    (r: Row) => if GroupName(r) == c then AsSeq(SpendLineFor(prev, cfg, r)) else []
  }

  function RegsOf(prev: State, c: string): Row -> seq<CountLine> {
    (r: Row) => if GroupName(r) == c then AsSeq(RegLineFor(prev, r)) else []
  }

  function DepsOf(prev: State, c: string): Row -> seq<CountLine> {
    (r: Row) => if GroupName(r) == c then AsSeq(DepLineFor(prev, r)) else []
  }

  /** The reference sections gather, section by section, what each row
      grouped under `c` contributes. */
  lemma {:induction false} CollectGathers(prev: State, cfg: Config, rows: seq<Row>, c: string)
    ensures Collect(prev, cfg, rows, c).spend == Gather(rows, SpendOf(prev, cfg, c))
    ensures Collect(prev, cfg, rows, c).regs == Gather(rows, RegsOf(prev, c))
    ensures Collect(prev, cfg, rows, c).deps == Gather(rows, DepsOf(prev, c))
    decreases |rows|
  {
    if rows != [] {
      CollectGathers(prev, cfg, rows[..|rows| - 1], c);
    }
  }

  /** A row's spend line, spelled out without SpendLineFor, SpendFires or
      Pct: the key was stored before this run, the line shows the row's
      stripped sub-ids, the stored and current cost and their difference,
      its percentage is the nearest integer to the relative change, the
      direction text admits the sign of the delta, and one of the two
      thresholds is met. */
  predicate SpendReported(prev: State, cfg: Config, r: Row, l: SpendLine) {
    var k := KeyForState(r);
    && k in prev
    && l.sub5 == Sub5(r) && l.sub4 == Sub4(r)
    && l.oldCost == prev[k].cost && l.nowCost == r.cost
    && l.delta == l.nowCost - l.oldCost
    && IsPct(l.oldCost, l.nowCost, l.pct)
    && (cfg.direction == "both" || (cfg.direction == "up" && l.delta > 0) || (cfg.direction == "down" && l.delta < 0))
    && (Abs(l.delta) >= cfg.spendAbs || l.pct * 100 >= cfg.spendPct)
  }

  /** The spend rule per row: SpendLineFor yields exactly the line
      SpendReported describes. */
  lemma SpendLineForIff(prev: State, cfg: Config, r: Row, l: SpendLine)
    ensures SpendLineFor(prev, cfg, r) == Some(l) <==> SpendReported(prev, cfg, r, l)
  {
    if SpendLineFor(prev, cfg, r) == Some(l) {
      SpendLineReported(prev, cfg, r, l);
    }
    if SpendReported(prev, cfg, r, l) {
      ReportedSpendLine(prev, cfg, r, l);
    }
  }

  /** Every spend line a row yields is the one SpendReported describes. */
  lemma SpendLineReported(prev: State, cfg: Config, r: Row, l: SpendLine)
    requires SpendLineFor(prev, cfg, r) == Some(l)
    ensures SpendReported(prev, cfg, r, l)
  {
    PctIff(l.oldCost, l.nowCost, l.pct);
  }

  /** A row meeting SpendReported yields exactly that spend line. */
  lemma ReportedSpendLine(prev: State, cfg: Config, r: Row, l: SpendLine)
    requires SpendReported(prev, cfg, r, l)
    ensures SpendLineFor(prev, cfg, r) == Some(l)
  {
    PctIff(l.oldCost, l.nowCost, l.pct);
  }

  lemma ReportedLineShape(prev: State, cfg: Config, r: Row, l: SpendLine)
    requires SpendReported(prev, cfg, r, l)
    ensures l.delta == l.nowCost - l.oldCost && DirectionOk(cfg.direction, l.delta)
  {
  }

  /** A row's reg line, spelled out: the key was stored and leads differ. */
  predicate RegReported(prev: State, r: Row, l: CountLine) {
    var k := KeyForState(r);
    k in prev && r.leads != prev[k].leads && l == CountLine(Sub5(r), Sub4(r), prev[k].leads, r.leads)
  }

  /** A row's dep line, spelled out: the key was stored and sales differ. */
  predicate DepReported(prev: State, r: Row, l: CountLine) {
    var k := KeyForState(r);
    k in prev && r.sales != prev[k].sales && l == CountLine(Sub5(r), Sub4(r), prev[k].sales, r.sales)
  }

  lemma SpendRow(prev: State, cfg: Config, c: string, r: Row, l: SpendLine)
    ensures l in SpendOf(prev, cfg, c)(r) <==> GroupName(r) == c && SpendReported(prev, cfg, r, l)
  {
    SpendLineForIff(prev, cfg, r, l);
  }

  lemma RegRow(prev: State, c: string, r: Row, l: CountLine)
    ensures l in RegsOf(prev, c)(r) <==> GroupName(r) == c && RegReported(prev, r, l)
  {
  }

  lemma DepRow(prev: State, c: string, r: Row, l: CountLine)
    ensures l in DepsOf(prev, c)(r) <==> GroupName(r) == c && DepReported(prev, r, l)
  {
  }

  /** A row whose key was stored and which passes the spend rule has its
      spend line listed under its campaign. */
  lemma {:induction false} SpendListed(prev: State, rows: seq<Row>, cfg: Config, n: nat, l: SpendLine)
    requires n < |rows| && SpendReported(prev, cfg, rows[n], l)
    ensures l in SectionsFor(DetectChanges(prev, rows, cfg).changes, GroupName(rows[n])).spend
  {
    var c := GroupName(rows[n]);
    ChangesMatchCollect(prev, rows, cfg, c);
    CollectGathers(prev, cfg, rows, c);
    GatherMembers(rows, SpendOf(prev, cfg, c), l);
    SpendRow(prev, cfg, c, rows[n], l);
  }

  /** Every spend line listed under campaign `c` comes from a row grouped
      under `c` whose key was stored and which passes the spend rule. */
  lemma {:induction false} SpendSource(prev: State, rows: seq<Row>, cfg: Config, c: string, l: SpendLine)
    requires l in SectionsFor(DetectChanges(prev, rows, cfg).changes, c).spend
    ensures exists n :: 0 <= n < |rows| && GroupName(rows[n]) == c && SpendReported(prev, cfg, rows[n], l)
  {
    ChangesMatchCollect(prev, rows, cfg, c);
    CollectGathers(prev, cfg, rows, c);
    GatherMembers(rows, SpendOf(prev, cfg, c), l);
    var n :| 0 <= n < |rows| && l in SpendOf(prev, cfg, c)(rows[n]);
    SpendRow(prev, cfg, c, rows[n], l);
  }

  /** Spend rule over the whole output: a spend line is listed under campaign
      `c` exactly when a row grouped under `c` whose key was stored passes the
      direction gate and at least one of the two thresholds. */
  lemma {:induction false} SpendSection(prev: State, rows: seq<Row>, cfg: Config, c: string, l: SpendLine)
    ensures l in SectionsFor(DetectChanges(prev, rows, cfg).changes, c).spend <==>
              exists n :: 0 <= n < |rows| && GroupName(rows[n]) == c && SpendReported(prev, cfg, rows[n], l)
  {
    if l in SectionsFor(DetectChanges(prev, rows, cfg).changes, c).spend {
      SpendSource(prev, rows, cfg, c, l);
    }
    if exists n :: 0 <= n < |rows| && GroupName(rows[n]) == c && SpendReported(prev, cfg, rows[n], l) {
      var n :| 0 <= n < |rows| && GroupName(rows[n]) == c && SpendReported(prev, cfg, rows[n], l);
      SpendListed(prev, rows, cfg, n, l);
    }
  }

  /** A row whose key was stored and whose lead count changed has its reg
      line listed under its campaign. */
  lemma {:induction false} RegListed(prev: State, rows: seq<Row>, cfg: Config, n: nat, l: CountLine)
    requires n < |rows| && RegReported(prev, rows[n], l)
    ensures l in SectionsFor(DetectChanges(prev, rows, cfg).changes, GroupName(rows[n])).regs
  {
    var c := GroupName(rows[n]);
    ChangesMatchCollect(prev, rows, cfg, c);
    CollectGathers(prev, cfg, rows, c);
    GatherMembers(rows, RegsOf(prev, c), l);
    RegRow(prev, c, rows[n], l);
  }

  /** Every reg line listed under `c` comes from a row grouped under `c`
      whose key was stored and whose lead count changed. */
  lemma {:induction false} RegSource(prev: State, rows: seq<Row>, cfg: Config, c: string, l: CountLine)
    requires l in SectionsFor(DetectChanges(prev, rows, cfg).changes, c).regs
    ensures exists n :: 0 <= n < |rows| && GroupName(rows[n]) == c && RegReported(prev, rows[n], l)
  {
    ChangesMatchCollect(prev, rows, cfg, c);
    CollectGathers(prev, cfg, rows, c);
    GatherMembers(rows, RegsOf(prev, c), l);
    var n :| 0 <= n < |rows| && l in RegsOf(prev, c)(rows[n]);
    RegRow(prev, c, rows[n], l);
  }

  /** Reg rule over the whole output: a reg line is listed exactly when a
      stored key's lead count differs, in either direction, with no clamping. */
  lemma {:induction false} RegSection(prev: State, rows: seq<Row>, cfg: Config, c: string, l: CountLine)
    ensures l in SectionsFor(DetectChanges(prev, rows, cfg).changes, c).regs <==>
              exists n :: 0 <= n < |rows| && GroupName(rows[n]) == c && RegReported(prev, rows[n], l)
  {
    if l in SectionsFor(DetectChanges(prev, rows, cfg).changes, c).regs {
      RegSource(prev, rows, cfg, c, l);
    }
    if exists n :: 0 <= n < |rows| && GroupName(rows[n]) == c && RegReported(prev, rows[n], l) {
      var n :| 0 <= n < |rows| && GroupName(rows[n]) == c && RegReported(prev, rows[n], l);
      RegListed(prev, rows, cfg, n, l);
    }
  }

  /** A row whose key was stored and whose sale count changed has its dep
      line listed under its campaign. */
  lemma {:induction false} DepListed(prev: State, rows: seq<Row>, cfg: Config, n: nat, l: CountLine)
    requires n < |rows| && DepReported(prev, rows[n], l)
    ensures l in SectionsFor(DetectChanges(prev, rows, cfg).changes, GroupName(rows[n])).deps
  {
    var c := GroupName(rows[n]);
    ChangesMatchCollect(prev, rows, cfg, c);
    CollectGathers(prev, cfg, rows, c);
    GatherMembers(rows, DepsOf(prev, c), l);
    DepRow(prev, c, rows[n], l);
  }

  /** Every dep line listed under `c` comes from a row grouped under `c`
      whose key was stored and whose sale count changed. */
  lemma {:induction false} DepSource(prev: State, rows: seq<Row>, cfg: Config, c: string, l: CountLine)
    requires l in SectionsFor(DetectChanges(prev, rows, cfg).changes, c).deps
    ensures exists n :: 0 <= n < |rows| && GroupName(rows[n]) == c && DepReported(prev, rows[n], l)
  {
    ChangesMatchCollect(prev, rows, cfg, c);
    CollectGathers(prev, cfg, rows, c);
    GatherMembers(rows, DepsOf(prev, c), l);
    var n :| 0 <= n < |rows| && l in DepsOf(prev, c)(rows[n]);
    DepRow(prev, c, rows[n], l);
  }

  /** Dep rule over the whole output: a dep line is listed exactly when a
      stored key's sale count differs, in either direction, with no clamping. */
  lemma {:induction false} DepSection(prev: State, rows: seq<Row>, cfg: Config, c: string, l: CountLine)
    ensures l in SectionsFor(DetectChanges(prev, rows, cfg).changes, c).deps <==>
              exists n :: 0 <= n < |rows| && GroupName(rows[n]) == c && DepReported(prev, rows[n], l)
  {
    if l in SectionsFor(DetectChanges(prev, rows, cfg).changes, c).deps {
      DepSource(prev, rows, cfg, c, l);
    }
    if exists n :: 0 <= n < |rows| && GroupName(rows[n]) == c && DepReported(prev, rows[n], l) {
      var n :| 0 <= n < |rows| && GroupName(rows[n]) == c && DepReported(prev, rows[n], l);
      DepListed(prev, rows, cfg, n, l);
    }
  }

  /** Direction gating on the output: every listed spend line shows the
      cost delta and passed the direction gate, so (by Spend.DirectionGate)
      "up" lists only rises, "down" only drops, and a direction other than
      "up", "down" or "both" lists no spend line at all. */
  lemma {:induction false} DirectionGating(prev: State, rows: seq<Row>, cfg: Config, g: Group, l: SpendLine)
    requires g in DetectChanges(prev, rows, cfg).changes && l in g.sections.spend
    ensures l.delta == l.nowCost - l.oldCost && DirectionOk(cfg.direction, l.delta)
  {
    var gs := DetectChanges(prev, rows, cfg).changes;
    var i :| 0 <= i < |gs| && gs[i] == g;
    SectionsForAt(gs, i);
    SpendSource(prev, rows, cfg, g.campaign, l);
    var n :| 0 <= n < |rows| && GroupName(rows[n]) == g.campaign && SpendReported(prev, cfg, rows[n], l);
    ReportedLineShape(prev, cfg, rows[n], l);
  }

  /** Reg and dep lines in the output always show a changed count. */
  lemma {:induction false} CountLinesChanged(prev: State, rows: seq<Row>, cfg: Config, g: Group, l: CountLine)
    requires g in DetectChanges(prev, rows, cfg).changes
    ensures l in g.sections.regs ==> l.oldCount != l.nowCount
    ensures l in g.sections.deps ==> l.oldCount != l.nowCount
  {
    var gs := DetectChanges(prev, rows, cfg).changes;
    var i :| 0 <= i < |gs| && gs[i] == g;
    SectionsForAt(gs, i);
    if l in g.sections.regs {
      RegSource(prev, rows, cfg, g.campaign, l);
    }
    if l in g.sections.deps {
      DepSource(prev, rows, cfg, g.campaign, l);
    }
  }

  /** The rows whose key was already stored, in order. */
  function Known(prev: State, rows: seq<Row>): (known: seq<Row>)
    ensures forall r :: r in known ==> KeyForState(r) in prev
    decreases |rows|
  {
    if rows == [] then []
    else
      var r := rows[|rows| - 1];
      Known(prev, rows[..|rows| - 1]) + (if KeyForState(r) in prev then [r] else [])
  }

  /** First sighting is silent: dropping every row whose key was not stored
      leaves the grouped changes exactly as they were. */
  lemma {:induction false} FirstSightingSilent(prev: State, rows: seq<Row>, cfg: Config)
    ensures DetectChanges(prev, rows, cfg).changes == DetectChanges(prev, Known(prev, rows), cfg).changes
    decreases |rows|
  {
    if rows != [] {
      var init := rows[..|rows| - 1];
      var r := rows[|rows| - 1];
      FirstSightingSilent(prev, init, cfg);
      var before := DetectChanges(prev, init, cfg).changes;
      assert DetectChanges(prev, rows, cfg).changes == AddLines(before, GroupName(r), RowLines(prev, cfg, r));
      if KeyForState(r) in prev {
        var k := Known(prev, rows);
        assert k == Known(prev, init) + [r];
        assert k[..|k| - 1] == Known(prev, init);
        assert k[|k| - 1] == r;
      } else {
        assert !HasLines(RowLines(prev, cfg, r));
        assert Known(prev, rows) == Known(prev, init) + [];
        assert Known(prev, init) + [] == Known(prev, init);
      }
    }
  }

  /** One more row: its lines are added to the grouped changes so far. */
  lemma DetectChangesSnoc(prev: State, rows: seq<Row>, cfg: Config)
    requires rows != []
    ensures DetectChanges(prev, rows, cfg).changes ==
              AddLines(DetectChanges(prev, rows[..|rows| - 1], cfg).changes, GroupName(rows[|rows| - 1]), RowLines(prev, cfg, rows[|rows| - 1]))
  {
  }

  /** No row contributes a line. */
  predicate Quiet(prev: State, cfg: Config, rows: seq<Row>) {
    forall n :: 0 <= n < |rows| ==> !HasLines(RowLines(prev, cfg, rows[n]))
  }

  lemma QuietSnoc(prev: State, cfg: Config, rows: seq<Row>)
    requires rows != []
    ensures Quiet(prev, cfg, rows) <==>
              Quiet(prev, cfg, rows[..|rows| - 1]) && !HasLines(RowLines(prev, cfg, rows[|rows| - 1]))
  {
    var init := rows[..|rows| - 1];
    assert forall n :: 0 <= n < |init| ==> init[n] == rows[n];
  }

  /** Nothing is listed exactly when no row contributes a line. */
  lemma {:induction false} NoChangesIff(prev: State, rows: seq<Row>, cfg: Config)
    ensures DetectChanges(prev, rows, cfg).changes == [] <==> Quiet(prev, cfg, rows)
    decreases |rows|
  {
    if rows != [] {
      NoChangesIff(prev, rows[..|rows| - 1], cfg);
      DetectChangesSnoc(prev, rows, cfg);
      QuietSnoc(prev, cfg, rows);
    }
  }

  /** Row `r` brings at least one line to campaign `c`. */
  predicate Contributes(prev: State, cfg: Config, r: Row, c: string) {
    GroupName(r) == c && HasLines(RowLines(prev, cfg, r))
  }

  /** Some row brings a line to campaign `c`. */
  predicate SomeContributes(prev: State, cfg: Config, rows: seq<Row>, c: string) {
    exists n :: 0 <= n < |rows| && Contributes(prev, cfg, rows[n], c)
  }

  lemma SomeContributesSnoc(prev: State, cfg: Config, rows: seq<Row>, c: string)
    requires rows != []
    ensures SomeContributes(prev, cfg, rows, c) <==>
              SomeContributes(prev, cfg, rows[..|rows| - 1], c) || Contributes(prev, cfg, rows[|rows| - 1], c)
  {
    if SomeContributes(prev, cfg, rows, c) && !Contributes(prev, cfg, rows[|rows| - 1], c) {
      ContributorBeforeLast(prev, cfg, rows, c);
    }
    if SomeContributes(prev, cfg, rows[..|rows| - 1], c) {
      ContributorKept(prev, cfg, rows, c);
    }
  }

  lemma ContributorBeforeLast(prev: State, cfg: Config, rows: seq<Row>, c: string)
    requires rows != []
    requires SomeContributes(prev, cfg, rows, c) && !Contributes(prev, cfg, rows[|rows| - 1], c)
    ensures SomeContributes(prev, cfg, rows[..|rows| - 1], c)
  {
    var init := rows[..|rows| - 1];
    var n :| 0 <= n < |rows| && Contributes(prev, cfg, rows[n], c);
    assert n < |init|;
    assert init[n] == rows[n];
  }

  lemma ContributorKept(prev: State, cfg: Config, rows: seq<Row>, c: string)
    requires rows != []
    requires SomeContributes(prev, cfg, rows[..|rows| - 1], c)
    ensures SomeContributes(prev, cfg, rows, c)
  {
    var init := rows[..|rows| - 1];
    var n :| 0 <= n < |init| && Contributes(prev, cfg, init[n], c);
    assert rows[n] == init[n];
  }

  /** A campaign is listed exactly when some row brings it a line. */
  lemma {:induction false} ListedIffContributes(prev: State, rows: seq<Row>, cfg: Config, c: string)
    ensures HasCampaign(DetectChanges(prev, rows, cfg).changes, c) <==> SomeContributes(prev, cfg, rows, c)
    decreases |rows|
  {
    if rows != [] {
      var init := rows[..|rows| - 1];
      var r := rows[|rows| - 1];
      ListedIffContributes(prev, init, cfg, c);
      DetectChangesSnoc(prev, rows, cfg);
      AddLinesCampaigns(DetectChanges(prev, init, cfg).changes, GroupName(r), RowLines(prev, cfg, r));
      SomeContributesSnoc(prev, cfg, rows, c);
    }
  }

  /** Campaigns in `gs` follow the order of their first line in `rows`:
      any row bringing a line to a later campaign comes after some row
      bringing a line to every earlier one. */
  predicate FirstLineOrder(prev: State, cfg: Config, rows: seq<Row>, gs: seq<Group>) {
    forall i, j, n :: 0 <= i < j < |gs| && 0 <= n < |rows| && Contributes(prev, cfg, rows[n], gs[j].campaign) ==>
      SomeContributes(prev, cfg, rows[..n], gs[i].campaign)
  }

  /** For two listed campaigns, any row bringing a line to the later one
      comes after some row bringing a line to the earlier one. */
  lemma {:induction false} CampaignOrder(prev: State, rows: seq<Row>, cfg: Config, i: nat, j: nat, n: nat)
    requires i < j < |DetectChanges(prev, rows, cfg).changes| && n < |rows|
    requires Contributes(prev, cfg, rows[n], DetectChanges(prev, rows, cfg).changes[j].campaign)
    ensures SomeContributes(prev, cfg, rows[..n], DetectChanges(prev, rows, cfg).changes[i].campaign)
  {
    GroupOrder(prev, rows, cfg);
  }

  /** Campaigns are listed, and so messaged, in the order of their first line. */
  lemma {:induction false} GroupOrder(prev: State, rows: seq<Row>, cfg: Config)
    ensures FirstLineOrder(prev, cfg, rows, DetectChanges(prev, rows, cfg).changes)
    decreases |rows|
  {
    if rows != [] {
      var init := rows[..|rows| - 1];
      var r := rows[|rows| - 1];
      var before := DetectChanges(prev, init, cfg).changes;
      GroupOrder(prev, init, cfg);
      DetectChangesSnoc(prev, rows, cfg);
      AddLinesCampaigns(before, GroupName(r), RowLines(prev, cfg, r));
      forall c ensures HasCampaign(before, c) <==> SomeContributes(prev, cfg, init, c) {
        ListedIffContributes(prev, init, cfg, c);
      }
      OrderStep(prev, cfg, rows, before, DetectChanges(prev, rows, cfg).changes);
    }
  }

  /** The inductive step of GroupOrder, stated over the campaigns listed
      before and after the last row: the earlier ones keep their places, at
      most one is added, and the earlier ones are those some earlier row
      brought a line to. */
  lemma OrderStep(prev: State, cfg: Config, rows: seq<Row>, before: seq<Group>, gs: seq<Group>)
    requires rows != []
    requires FirstLineOrder(prev, cfg, rows[..|rows| - 1], before)
    requires Distinct(gs)
    requires |before| <= |gs| <= |before| + 1
    requires forall k :: 0 <= k < |before| ==> gs[k].campaign == before[k].campaign
    requires forall c :: HasCampaign(before, c) <==> SomeContributes(prev, cfg, rows[..|rows| - 1], c)
    ensures FirstLineOrder(prev, cfg, rows, gs)
  {
    forall i, j, n | 0 <= i < j < |gs| && 0 <= n < |rows| && Contributes(prev, cfg, rows[n], gs[j].campaign)
      ensures SomeContributes(prev, cfg, rows[..n], gs[i].campaign)
    {
      if n < |rows| - 1 {
        KnownIndex(before, gs, j);
        OrderEarlierRow(prev, cfg, rows, before, gs, i, j, n);
      } else {
        OrderLastRow(prev, cfg, rows, before, gs, i, j);
      }
    }
  }

  /** The step for one of the earlier rows: its campaign was listed before,
      so the order among the campaigns listed before carries over. */
  lemma OrderEarlierRow(prev: State, cfg: Config, rows: seq<Row>, before: seq<Group>, gs: seq<Group>, i: nat, j: nat, n: nat)
    requires rows != []
    requires FirstLineOrder(prev, cfg, rows[..|rows| - 1], before)
    requires i < j < |gs| && n < |rows| - 1
    requires SomeContributes(prev, cfg, rows[..|rows| - 1], gs[j].campaign) ==> HasCampaign(before, gs[j].campaign)
    requires HasCampaign(before, gs[j].campaign) ==> j < |before|
    requires j < |before| ==> gs[i].campaign == before[i].campaign && gs[j].campaign == before[j].campaign
    requires Contributes(prev, cfg, rows[n], gs[j].campaign)
    ensures SomeContributes(prev, cfg, rows[..n], gs[i].campaign)
  {
    var init := rows[..|rows| - 1];
    assert init[n] == rows[n];
    assert SomeContributes(prev, cfg, init, gs[j].campaign);
    OrderCarries(prev, cfg, init, before, i, j, n);
    assert init[..n] == rows[..n];
  }

  /** A campaign of `gs` that was already listed in `before` sits at the
      same place, since `gs` keeps `before`'s campaigns in place and lists
      each campaign once. */
  lemma KnownIndex(before: seq<Group>, gs: seq<Group>, j: nat)
    requires Distinct(gs)
    requires |before| <= |gs| && j < |gs|
    requires forall k :: 0 <= k < |before| ==> gs[k].campaign == before[k].campaign
    ensures HasCampaign(before, gs[j].campaign) ==> j < |before|
  {
    if HasCampaign(before, gs[j].campaign) {
      var k :| 0 <= k < |before| && before[k].campaign == gs[j].campaign;
      assert gs[k].campaign == gs[j].campaign;
    }
  }

  /** The order among the campaigns listed before, for one earlier row. */
  lemma OrderCarries(prev: State, cfg: Config, init: seq<Row>, before: seq<Group>, i: nat, j: nat, n: nat)
    requires FirstLineOrder(prev, cfg, init, before)
    requires i < j < |before| && n < |init|
    requires Contributes(prev, cfg, init[n], before[j].campaign)
    ensures SomeContributes(prev, cfg, init[..n], before[i].campaign)
  {
  }

  /** The step for the last row: every campaign listed ahead of its
      campaign was listed before, so an earlier row brought it a line. */
  lemma OrderLastRow(prev: State, cfg: Config, rows: seq<Row>, before: seq<Group>, gs: seq<Group>, i: nat, j: nat)
    requires rows != []
    requires |before| <= |gs| <= |before| + 1
    requires forall k :: 0 <= k < |before| ==> gs[k].campaign == before[k].campaign
    requires i < j < |gs|
    requires HasCampaign(before, gs[i].campaign) ==> SomeContributes(prev, cfg, rows[..|rows| - 1], gs[i].campaign)
    ensures SomeContributes(prev, cfg, rows[..|rows| - 1], gs[i].campaign)
  {
    assert i < |before|;
    assert before[i].campaign == gs[i].campaign;
  }

  /** A row contributes no line when its key was not stored before the run. */
  lemma UnknownRowIsSilent(prev: State, cfg: Config, r: Row)
    requires KeyForState(r) !in prev
    ensures !HasLines(RowLines(prev, cfg, r))
  {
  }

  /** When no row's key was stored (in particular with an empty state),
      nothing is listed. */
  lemma AllNewIsSilent(prev: State, rows: seq<Row>, cfg: Config)
    requires forall n :: 0 <= n < |rows| ==> KeyForState(rows[n]) !in prev
    ensures DetectChanges(prev, rows, cfg).changes == []
  {
    NoChangesIff(prev, rows, cfg);
    assert Quiet(prev, cfg, rows);
  }

  /** The merged state is the stored state overwritten, row by row, with the
      current records. */
  lemma {:induction false} NewStateIsOverwrite(prev: State, rows: seq<Row>, cfg: Config)
    ensures DetectChanges(prev, rows, cfg).newState == Overwrite(prev, rows)
    decreases |rows|
  {
    if rows != [] {
      NewStateIsOverwrite(prev, rows[..|rows| - 1], cfg);
    }
  }

  /** A stored key that no current row produces keeps its stored record. */
  lemma {:induction false} StateKeeps(prev: State, rows: seq<Row>, cfg: Config, k: string)
    requires k in prev && k !in KeysOf(rows)
    ensures DetectChanges(prev, rows, cfg).newState[k] == prev[k]
  {
    NewStateIsOverwrite(prev, rows, cfg);
    OverwriteKeeps(prev, rows, k);
  }

  /** A key some current rows produce holds the record of the last of them,
      whether or not it was stored before. */
  lemma {:induction false} StateLastWins(prev: State, rows: seq<Row>, cfg: Config, n: int)
    requires LastWithKey(rows, n)
    ensures DetectChanges(prev, rows, cfg).newState[KeyForState(rows[n])] == StoredOf(rows[n])
  {
    NewStateIsOverwrite(prev, rows, cfg);
    OverwriteLastWins(prev, rows, n);
  }

  /** State merge: no stored key is lost, a key no row produces keeps its
      stored record, and a key some rows produce holds the record of the last
      of them, whether or not it was stored before. */
  lemma {:induction false} StateMerge(prev: State, rows: seq<Row>, cfg: Config)
    ensures prev.Keys <= DetectChanges(prev, rows, cfg).newState.Keys
    ensures forall k :: k in prev && k !in KeysOf(rows) ==> DetectChanges(prev, rows, cfg).newState[k] == prev[k]
    ensures forall n :: LastWithKey(rows, n) ==> DetectChanges(prev, rows, cfg).newState[KeyForState(rows[n])] == StoredOf(rows[n])
  {
    NewStateIsOverwrite(prev, rows, cfg);
    OverwriteValues(prev, rows);
  }
}
