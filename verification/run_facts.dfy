/** What a run promises: a silent first run, the vacation message exactly
    when nothing changed, and a quiet re-run. */
module RunFacts {
  import opened Wrappers
  import opened Rows
  import opened Spend
  import opened Diff
  import opened DiffFacts
  import opened Grouping
  import opened Run

  /** Every campaign's rendered message, in the order of the grouped changes. */
  function RenderAll(changes: seq<Group>): (ms: seq<Message>)
    ensures |ms| == |changes|
    decreases |changes|
  {
    if changes == [] then [] else RenderAll(changes[..|changes| - 1]) + [Grouped(Render(changes[|changes| - 1]))]
  }

  lemma {:induction false} RenderAllAt(changes: seq<Group>, i: nat)
    requires i < |changes|
    ensures RenderAll(changes)[i] == Grouped(Render(changes[i]))
    decreases |changes|
  {
    var n := |changes| - 1;
    if i < n {
      RenderAllAt(changes[..n], i);
      assert changes[..n][i] == changes[i];
    }
  }

  /** When every campaign has a line, each one gets its message, in the
      order of the grouped changes. */
  lemma {:induction false} OneMessagePerCampaign(changes: seq<Group>)
    requires forall i :: 0 <= i < |changes| ==> HasLines(changes[i].sections)
    ensures SendGroupedMessages(changes) == Sent(RenderAll(changes), |changes|)
    decreases |changes|
  {
    if changes != [] {
      var n := |changes| - 1;
      var init := changes[..n];
      assert forall i :: 0 <= i < |init| ==> HasLines(init[i].sections) by {
        assert forall i :: 0 <= i < n ==> init[i] == changes[i];
      }
      OneMessagePerCampaign(init);
      SendStep(changes);
    }
  }

  /** The message of the `i`-th campaign is the `i`-th message sent. */
  lemma {:induction false} MessageAt(changes: seq<Group>, i: nat)
    requires forall i :: 0 <= i < |changes| ==> HasLines(changes[i].sections)
    requires i < |changes|
    ensures |SendGroupedMessages(changes).messages| == |changes|
    ensures SendGroupedMessages(changes).messages[i] == Grouped(Render(changes[i]))
  {
    OneMessagePerCampaign(changes);
    RenderAllAt(changes, i);
  }

  /** A campaign with a line adds its rendered message at the end. */
  lemma SendStep(changes: seq<Group>)
    requires changes != [] && HasLines(changes[|changes| - 1].sections)
    ensures SendGroupedMessages(changes).messages ==
              SendGroupedMessages(changes[..|changes| - 1]).messages + [Grouped(Render(changes[|changes| - 1]))]
    ensures SendGroupedMessages(changes).count == SendGroupedMessages(changes[..|changes| - 1]).count + 1
  {
    assert Render(changes[|changes| - 1]) != [];
  }

  /** The first-run baseline is what diffing against an empty state would
      save, and that diff lists nothing. */
  lemma {:induction false} BaselineIsSilentDiff(rows: seq<Row>, cfg: Config)
    ensures DetectChanges(map[], rows, cfg) == DiffResult([], Baseline(rows))
  {
    AllNewIsSilent(map[], rows, cfg);
    NewStateIsOverwrite(map[], rows, cfg);
  }

  /** With no prior state the run sends nothing and saves every row's key,
      holding the record of the last row with that key. */
  lemma {:induction false} FirstRunIsSilent(rows: seq<Row>, cfg: Config)
    ensures RunOnce(map[], rows, cfg).messages == []
    ensures RunOnce(map[], rows, cfg).saved.Keys == KeysOf(rows)
    ensures forall n :: LastWithKey(rows, n) ==> RunOnce(map[], rows, cfg).saved[KeyForState(rows[n])] == StoredOf(rows[n])
  {
    OverwriteValues(map[], rows);
  }

  /** With prior state the run saves the merged state, sends one message per
      campaign with a change, and adds the single vacation message exactly
      when no row reported anything. */
  lemma {:induction false} VacationIffQuiet(prev: State, rows: seq<Row>, cfg: Config)
    requires prev != map[]
    ensures var o := RunOnce(prev, rows, cfg);
            var d := DetectChanges(prev, rows, cfg);
            && o.saved == d.newState
            && (Plain(Vacation) in o.messages <==> Quiet(prev, cfg, rows))
            && |o.messages| == (if Quiet(prev, cfg, rows) then 1 else |d.changes|)
            && (Quiet(prev, cfg, rows) ==> o.messages == [Plain(Vacation)])
  {
    var d := DetectChanges(prev, rows, cfg);
    var sent := SendGroupedMessages(d.changes);
    NoChangesIff(prev, rows, cfg);
    OneMessagePerCampaign(d.changes);
    SentMessages(d.changes);
    assert Plain(Vacation) !in sent.messages;
  }

  /** A first run saves, under each key, the record of the last row with it. */
  lemma {:induction false} FirstRunSaves(rows: seq<Row>, cfg: Config, n: int)
    requires LastWithKey(rows, n)
    ensures RunOnce(map[], rows, cfg).saved[KeyForState(rows[n])] == StoredOf(rows[n])
  {
    OverwriteLastWins(map[], rows, n);
  }

  /** A run with stored state in which no row yields a line sends the
      vacation message and nothing else. */
  lemma {:induction false} VacationWhenQuiet(prev: State, rows: seq<Row>, cfg: Config)
    requires prev != map[] && Quiet(prev, cfg, rows)
    ensures RunOnce(prev, rows, cfg).messages == [Plain(Vacation)]
  {
    NoChangesIff(prev, rows, cfg);
  }

  /** A run with stored state in which row `n` yields a line sends no
      vacation message. */
  lemma {:induction false} NoVacationOnChange(prev: State, rows: seq<Row>, cfg: Config, n: nat)
    requires prev != map[] && n < |rows| && HasLines(RowLines(prev, cfg, rows[n]))
    ensures Plain(Vacation) !in RunOnce(prev, rows, cfg).messages
  {
    var changes := DetectChanges(prev, rows, cfg).changes;
    NoChangesIff(prev, rows, cfg);
    OneMessagePerCampaign(changes);
    SentMessages(changes);
  }

  /** A run with stored state in which row `n` yields a line sends exactly
      one message per listed campaign, in list order. */
  lemma {:induction false} ChangedRunMessages(prev: State, rows: seq<Row>, cfg: Config, n: nat)
    requires prev != map[] && n < |rows| && HasLines(RowLines(prev, cfg, rows[n]))
    ensures RunOnce(prev, rows, cfg).messages == RenderAll(DetectChanges(prev, rows, cfg).changes)
  {
    var changes := DetectChanges(prev, rows, cfg).changes;
    NoChangesIff(prev, rows, cfg);
    OneMessagePerCampaign(changes);
  }

  /** Rows with distinct keys. */
  predicate DistinctKeys(rows: seq<Row>) {
    forall i, j :: 0 <= i < j < |rows| ==> KeyForState(rows[i]) != KeyForState(rows[j])
  }

  /** Running again on the same capture, with positive thresholds and
      distinct keys, finds nothing: the only message is the vacation one. */
  lemma QuietRerun(prev: State, rows: seq<Row>, cfg: Config)
    requires DistinctKeys(rows)
    requires cfg.spendAbs > 0 && cfg.spendPct > 0
    requires prev != map[] || rows != []
    ensures RunOnce(RunOnce(prev, rows, cfg).saved, rows, cfg).messages == [Plain(Vacation)]
  {
    var saved := RunOnce(prev, rows, cfg).saved;
    assert forall n :: 0 <= n < |rows| ==> LastWithKey(rows, n);
    if prev == map[] {
      FirstRunIsSilent(rows, cfg);
      assert KeyForState(rows[0]) in saved;
    } else {
      StateMerge(prev, rows, cfg);
    }
    assert saved != map[];
    forall n | 0 <= n < |rows|
      ensures !HasLines(RowLines(saved, cfg, rows[n]))
    {
      assert saved[KeyForState(rows[n])] == StoredOf(rows[n]);
      UnchangedCostIsQuiet(cfg, rows[n].cost);
    }
    VacationIffQuiet(saved, rows, cfg);
  }

  /** Duplicate keys break the quiet re-run: the state keeps only the last
      duplicate, so an earlier one with other counts is reported again on
      every run. */
  lemma DuplicateKeysReportAgain()
    ensures var r1 := Row(Some("c"), None, Some("5"), Some("4"), 0, 1, 0, 0);
            var r2 := Row(Some("c"), None, Some("5"), Some("4"), 0, 2, 0, 0);
            var saved := RunOnce(map[], [r1, r2], Defaults).saved;
            RunOnce(saved, [r1, r2], Defaults).messages != [Plain(Vacation)]
  {
    var r1 := Row(Some("c"), None, Some("5"), Some("4"), 0, 1, 0, 0);
    var r2 := Row(Some("c"), None, Some("5"), Some("4"), 0, 2, 0, 0);
    var rows := [r1, r2];
    var saved := RunOnce(map[], rows, Defaults).saved;
    assert LastWithKey(rows, 1);
    FirstRunIsSilent(rows, Defaults);
    assert saved[KeyForState(r1)] == Stored(0, 2, 0);
    assert HasLines(RowLines(saved, Defaults, rows[0]));
    VacationIffQuiet(saved, rows, Defaults);
  }

  /** Drops are reported and saved as they are, with no clamping: a stored
      10 leads that now reads 7 yields the reg line 10 -> 7, and 7 is saved. */
  lemma DecreaseReported()
    ensures var r := Row(Some("camp"), None, Some("s5"), Some("s4"), 0, 7, 0, 500);
            var prev := map["camp|s5|s4" := Stored(500, 10, 0)];
            var d := DetectChanges(prev, [r], Defaults);
            && d.changes == [Group("camp", Sections([], [CountLine("s5", "s4", 10, 7)], []))]
            && d.newState["camp|s5|s4"] == Stored(500, 7, 0)
  {
    var r := Row(Some("camp"), None, Some("s5"), Some("s4"), 0, 7, 0, 500);
    assert KeyForState(r) == "camp|s5|s4";
    assert Text.Strip("camp") == "camp";
    assert Text.Strip("s5") == "s5";
    assert Text.Strip("s4") == "s4";
    assert [r][..0] == [];
  }
}
