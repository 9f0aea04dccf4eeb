/** One run of the notifier (`main`), with the scrape, the state load and
    the sending and saving turned into inputs and outputs. */
module Run {
  import opened Rows
  import opened Spend
  import opened Diff
  import opened Grouping

  /** The text sent when no campaign had anything to report. */
  const Vacation: string := "accs on vacation..."

  /** What one run sends, in order, and the state it saves. */
  datatype Outcome = Outcome(messages: seq<Message>, saved: State)

  /** The silent baseline of a first run: every row's record under its key,
      a later row with the same key overwriting an earlier one. */
  function Baseline(rows: seq<Row>): (st: State)
    ensures st.Keys == KeysOf(rows)
  {
    Overwrite(map[], rows)
  }

  /** `main` after the scrape: `prev` is the loaded state, empty when there
      was none or it could not be read. */
  function RunOnce(prev: State, rows: seq<Row>, cfg: Config): (o: Outcome)
    ensures o.saved.Keys == prev.Keys + KeysOf(rows)
    ensures prev == map[] <==> o.messages == []
  {
    if prev == map[] then Outcome([], Baseline(rows))
    else
      var d := DetectChanges(prev, rows, cfg);
      var sent := SendGroupedMessages(d.changes);
      Outcome(sent.messages + (if sent.count == 0 then [Plain(Vacation)] else []), d.newState)
  }
}
