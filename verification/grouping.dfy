/** `send_grouped_messages`: at most one message per campaign. Sending is
    modelled as appending the message to the output. */
module Grouping {
  import opened Diff

  /** One entry of the list a campaign's message is joined from, with the
      line texts kept as structured records. */
  datatype Part =
    | Alert
    | CampaignHeader(campaign: string)
    | SpendBlock(spend: seq<SpendLine>)
    | Blank
    | RegsTitle
    | RegsBlock(regs: seq<CountLine>)
    | DepsTitle
    | DepsBlock(deps: seq<CountLine>)

  /** A message handed to the sink. */
  datatype Message = Grouped(parts: seq<Part>) | Plain(text: string)

  /** What was sent, and the count of sent campaign messages. */
  datatype Sent = Sent(messages: seq<Message>, count: nat)

  /** Which section a non-blank part belongs to: spend 0, regs 1, deps 2. */
  function SectionIndex(p: Part): nat {
    match p
    case Alert => 0
    case CampaignHeader(_) => 0
    case SpendBlock(_) => 0
    case Blank => 0
    case RegsTitle => 1
    case RegsBlock(_) => 1
    case DepsTitle => 2
    case DepsBlock(_) => 2
  }

  predicate IsTitle(p: Part) {
    p == Alert || p == RegsTitle || p == DepsTitle
  }

  /** The spend section: the alert line, the `Campaign:` header and the
      spend lines. */
  function SpendParts(g: Group): seq<Part> {
    [Alert, CampaignHeader(g.campaign), SpendBlock(g.sections.spend)]
  }

  /** The registrations section: its title and its lines. */
  function RegsParts(s: Sections): seq<Part> {
    [RegsTitle, RegsBlock(s.regs)]
  }

  /** The deposits section: its title and its lines. */
  function DepsParts(s: Sections): seq<Part> {
    [DepsTitle, DepsBlock(s.deps)]
  }

  /** `if lines: lines.append("")` followed by the section. */
  function AppendSection(parts: seq<Part>, section: seq<Part>): (r: seq<Part>)
    ensures r != [] <==> parts != [] || section != []
  {
    parts + (if parts != [] then [Blank] else []) + section
  }

  /** The spend section if it has lines, then the registrations section if
      it has lines. */
  function UpToRegs(g: Group): seq<Part> {
    if g.sections.regs != [] then AppendSection(WithSpend(g), RegsParts(g.sections)) else WithSpend(g)
  }

  /** A campaign's message body: the list its text is joined from. It is
      empty exactly when the campaign has no line. */
  function Render(g: Group): (parts: seq<Part>)
    ensures parts == [] <==> !HasLines(g.sections)
  {
    var withRegs := UpToRegs(g);
    if g.sections.deps != [] then AppendSection(withRegs, DepsParts(g.sections)) else withRegs
  }

  /** A part holding lines: the last part of every section. */
  predicate IsBlock(p: Part) {
    p.SpendBlock? || p.RegsBlock? || p.DepsBlock?
  }

  /** The parts that may follow one another: inside a section, its title,
      then (for spend) the `Campaign:` header, then its lines; between two
      sections, a blank after the lines of one and before the title of the
      registrations or deposits section. */
  predicate Adjacent(a: Part, b: Part) {
    || (a == Alert && b.CampaignHeader?)
    || (a.CampaignHeader? && b.SpendBlock?)
    || (a == RegsTitle && b.RegsBlock?)
    || (a == DepsTitle && b.DepsBlock?)
    || (IsBlock(a) && b == Blank)
    || (a == Blank && (b == RegsTitle || b == DepsTitle))
  }

  /** A message body is a run of whole sections, spend, regs and deps in
      that order, each present at most once and each but the first behind
      one blank: it opens with a title and ends with lines, neighbouring
      parts are Adjacent, and the sections on the two sides of a blank are
      different ones, the earlier one first. */
  predicate Layout(parts: seq<Part>) {
    && (parts != [] ==> IsTitle(parts[0]) && IsBlock(parts[|parts| - 1]))
    && (forall i :: 0 <= i < |parts| - 1 ==> Adjacent(parts[i], parts[i + 1]))
    && (forall i, j :: 0 <= i < j < |parts| && parts[i] != Blank && parts[j] != Blank ==>
          SectionIndex(parts[i]) <= SectionIndex(parts[j]))
    && (forall i :: 0 < i < |parts| - 1 && parts[i] == Blank ==>
          SectionIndex(parts[i - 1]) < SectionIndex(parts[i + 1]))
  }

  /** The shapes Layout rules out: sections run together without a blank,
      a blank inside a section, a section split in two, parts of the spend
      section out of order, and a blank at either end. */
  lemma LayoutRejects()
    ensures !Layout([Alert, CampaignHeader("x"), SpendBlock([]), RegsTitle, RegsBlock([])])
    ensures !Layout([RegsTitle, Blank, RegsTitle, RegsBlock([])])
    ensures !Layout([RegsTitle, RegsBlock([]), Blank, RegsTitle, RegsBlock([])])
    ensures !Layout([Alert, SpendBlock([]), CampaignHeader("x")])
    ensures !Layout([Blank, RegsTitle, RegsBlock([])])
    ensures !Layout([RegsTitle, RegsBlock([]), Blank])
  {
    var p0 := [Alert, CampaignHeader("x"), SpendBlock([]), RegsTitle, RegsBlock([])];
    assert !Adjacent(p0[2], p0[3]);
    var p1 := [RegsTitle, Blank, RegsTitle, RegsBlock([])];
    assert !Adjacent(p1[0], p1[1]);
    var p2 := [RegsTitle, RegsBlock([]), Blank, RegsTitle, RegsBlock([])];
    assert p2[2] == Blank && !(SectionIndex(p2[1]) < SectionIndex(p2[3]));
    var p3 := [Alert, SpendBlock([]), CampaignHeader("x")];
    assert !Adjacent(p3[0], p3[1]);
  }

  /** Appending a section adds its parts and, when something came before,
      one blank, and nothing else. */
  lemma AppendSectionMembers(parts: seq<Part>, section: seq<Part>, p: Part)
    ensures p in AppendSection(parts, section) <==> p in parts || p in section || (p == Blank && parts != [])
  {
  }

  /** The parts up to the registrations section: what of spend and regs
      has lines. */
  lemma UpToRegsMembers(g: Group, p: Part)
    ensures p in UpToRegs(g) <==>
              (g.sections.spend != [] && p in SpendParts(g))
              || (g.sections.regs != [] && p in RegsParts(g.sections))
              || (p == Blank && g.sections.spend != [] && g.sections.regs != [])
  {
    AppendSectionMembers(WithSpend(g), RegsParts(g.sections), p);
  }

  /** Membership in a message, section by section. */
  lemma RenderMembers(g: Group, p: Part)
    ensures p != Blank ==>
              (p in Render(g) <==>
                 (g.sections.spend != [] && p in SpendParts(g))
                 || (g.sections.regs != [] && p in RegsParts(g.sections))
                 || (g.sections.deps != [] && p in DepsParts(g.sections)))
  {
    UpToRegsMembers(g, p);
    AppendSectionMembers(UpToRegs(g), DepsParts(g.sections), p);
  }

  /** Each non-empty section is in the message with all its lines, each
      empty one is absent, and the `alert` / `Campaign:` header is there
      exactly when the spend section is non-empty. */
  lemma RenderSpend(g: Group)
    ensures Alert in Render(g) <==> g.sections.spend != []
    ensures forall c :: CampaignHeader(c) in Render(g) <==> g.sections.spend != [] && c == g.campaign
    ensures SpendBlock(g.sections.spend) in Render(g) <==> g.sections.spend != []
  {
    RenderMembers(g, Alert);
    forall c ensures CampaignHeader(c) in Render(g) <==> g.sections.spend != [] && c == g.campaign {
      RenderMembers(g, CampaignHeader(c));
    }
    RenderMembers(g, SpendBlock(g.sections.spend));
  }
  lemma RenderRegs(g: Group)
    ensures RegsTitle in Render(g) <==> g.sections.regs != []
    ensures RegsBlock(g.sections.regs) in Render(g) <==> g.sections.regs != []
  {
    RenderMembers(g, RegsTitle);
    RenderMembers(g, RegsBlock(g.sections.regs));
  }
  lemma RenderDeps(g: Group)
    ensures DepsTitle in Render(g) <==> g.sections.deps != []
    ensures DepsBlock(g.sections.deps) in Render(g) <==> g.sections.deps != []
  {
    RenderMembers(g, DepsTitle);
    RenderMembers(g, DepsBlock(g.sections.deps));
  }

  /** Every non-blank part belongs to a section before `k`. */
  predicate Below(parts: seq<Part>, k: nat) {
    forall i :: 0 <= i < |parts| && parts[i] != Blank ==> SectionIndex(parts[i]) < k
  }

  /** One section's parts: a title first, its lines last, neighbours
      Adjacent, no blank, all in section `k`. */
  predicate SectionParts(section: seq<Part>, k: nat) {
    && section != []
    && IsTitle(section[0])
    && IsBlock(section[|section| - 1])
    && (forall i :: 0 <= i < |section| - 1 ==> Adjacent(section[i], section[i + 1]))
    && forall i :: 0 <= i < |section| ==> section[i] != Blank && SectionIndex(section[i]) == k
  }

  /** What appending section `k` behind `parts` needs: `parts` laid out
      with sections before `k`, and a whole section `k` that may follow a
      blank. */
  predicate CanAppend(parts: seq<Part>, section: seq<Part>, k: nat) {
    && Layout(parts) && Below(parts, k)
    && SectionParts(section, k)
    && (parts != [] ==> section[0] == RegsTitle || section[0] == DepsTitle)
  }

  /** Where the old parts and the section sit after appending. */
  lemma AppendPositions(parts: seq<Part>, section: seq<Part>)
    requires section != []
    ensures var r, off := AppendSection(parts, section), |parts| + (if parts != [] then 1 else 0);
            && |r| == off + |section|
            && (forall i :: 0 <= i < |parts| ==> r[i] == parts[i])
            && (parts != [] ==> r[|parts|] == Blank)
            && (forall i :: off <= i < |r| ==> r[i] == section[i - off])
  {
  }

  lemma AppendEnds(parts: seq<Part>, section: seq<Part>, k: nat)
    requires CanAppend(parts, section, k)
    ensures var r := AppendSection(parts, section);
            IsTitle(r[0]) && IsBlock(r[|r| - 1]) && Below(r, k + 1)
  {
    AppendPositions(parts, section);
    var r := AppendSection(parts, section);
    var off := |parts| + (if parts != [] then 1 else 0);
    assert r[|r| - 1] == section[|section| - 1];
    assert r[0] == if parts != [] then parts[0] else section[0];
    forall i | 0 <= i < |r| && r[i] != Blank
      ensures SectionIndex(r[i]) < k + 1
    {
      if i >= off {
        assert r[i] == section[i - off];
      }
    }
  }

  lemma AppendAdjacent(parts: seq<Part>, section: seq<Part>, k: nat)
    requires CanAppend(parts, section, k)
    ensures var r := AppendSection(parts, section);
            forall i :: 0 <= i < |r| - 1 ==> Adjacent(r[i], r[i + 1])
  {
    AppendPositions(parts, section);
    var r := AppendSection(parts, section);
    var off := |parts| + (if parts != [] then 1 else 0);
    forall i | 0 <= i < |r| - 1
      ensures Adjacent(r[i], r[i + 1])
    {
      if i + 1 < |parts| {
        assert r[i] == parts[i] && r[i + 1] == parts[i + 1];
      } else if i + 1 == |parts| {
        assert r[i] == parts[|parts| - 1] && r[i + 1] == Blank;
      } else if i < off {
        assert r[i] == Blank && r[i + 1] == section[0];
      } else {
        assert r[i] == section[i - off] && r[i + 1] == section[i - off + 1];
      }
    }
  }

  lemma AppendOrder(parts: seq<Part>, section: seq<Part>, k: nat)
    requires CanAppend(parts, section, k)
    ensures var r := AppendSection(parts, section);
            forall i, j :: 0 <= i < j < |r| && r[i] != Blank && r[j] != Blank ==>
              SectionIndex(r[i]) <= SectionIndex(r[j])
  {
    AppendPositions(parts, section);
    var r := AppendSection(parts, section);
    var off := |parts| + (if parts != [] then 1 else 0);
    forall i, j | 0 <= i < j < |r| && r[i] != Blank && r[j] != Blank
      ensures SectionIndex(r[i]) <= SectionIndex(r[j])
    {
      if j < |parts| {
        assert r[i] == parts[i] && r[j] == parts[j];
      } else if i < |parts| {
        assert r[i] == parts[i] && r[j] == section[j - off];
      } else {
        assert r[i] == section[i - off] && r[j] == section[j - off];
      }
    }
  }

  lemma AppendBlanks(parts: seq<Part>, section: seq<Part>, k: nat)
    requires CanAppend(parts, section, k)
    ensures var r := AppendSection(parts, section);
            forall i :: 0 < i < |r| - 1 && r[i] == Blank ==> SectionIndex(r[i - 1]) < SectionIndex(r[i + 1])
  {
    AppendPositions(parts, section);
    var r := AppendSection(parts, section);
    var off := |parts| + (if parts != [] then 1 else 0);
    forall i | 0 < i < |r| - 1 && r[i] == Blank
      ensures SectionIndex(r[i - 1]) < SectionIndex(r[i + 1])
    {
      if i < |parts| {
        assert r[i] == parts[i] && IsBlock(parts[|parts| - 1]);
        assert r[i - 1] == parts[i - 1] && r[i + 1] == parts[i + 1];
      } else {
        assert r[i - 1] == parts[|parts| - 1] && r[i + 1] == section[0];
        assert SectionIndex(section[0]) == k;
      }
    }
  }

  /** Appending a later section, behind a blank when something came before,
      keeps the layout. */
  lemma {:induction false} AppendSectionLayout(parts: seq<Part>, section: seq<Part>, k: nat)
    requires Layout(parts) && Below(parts, k)
    requires SectionParts(section, k)
    requires parts != [] ==> section[0] == RegsTitle || section[0] == DepsTitle
    ensures Layout(AppendSection(parts, section)) && Below(AppendSection(parts, section), k + 1)
  {
    AppendEnds(parts, section, k);
    AppendAdjacent(parts, section, k);
    AppendOrder(parts, section, k);
    AppendBlanks(parts, section, k);
  }

  /** A section appended behind an earlier layout, by its index. */
  lemma SectionStep(parts: seq<Part>, section: seq<Part>, k: nat)
    requires Layout(parts) && Below(parts, k)
    requires SectionParts(section, k) && 1 <= k
    ensures Layout(AppendSection(parts, section)) && Below(AppendSection(parts, section), k + 1)
  {
    assert section[0] == RegsTitle || section[0] == DepsTitle by {
      assert IsTitle(section[0]) && SectionIndex(section[0]) == k;
    }
    AppendSectionLayout(parts, section, k);
  }

  /** The spend section alone. */
  function WithSpend(g: Group): seq<Part> {
    if g.sections.spend != [] then SpendParts(g) else []
  }

  lemma SpendLayout(g: Group)
    ensures Layout(WithSpend(g)) && Below(WithSpend(g), 1)
  {
    if g.sections.spend != [] {
      assert SectionParts(SpendParts(g), 0);
      AppendSectionLayout([], SpendParts(g), 0);
      assert AppendSection([], SpendParts(g)) == WithSpend(g);
    }
  }

  lemma UpToRegsLayout(g: Group)
    ensures Layout(UpToRegs(g)) && Below(UpToRegs(g), 2)
  {
    SpendLayout(g);
    if g.sections.regs != [] {
      assert SectionParts(RegsParts(g.sections), 1);
      SectionStep(WithSpend(g), RegsParts(g.sections), 1);
    }
  }

  /** Every rendered message has the layout above. */
  lemma {:induction false} RenderLayout(g: Group)
    ensures Layout(Render(g))
  {
    UpToRegsLayout(g);
    if g.sections.deps != [] {
      assert SectionParts(DepsParts(g.sections), 2);
      SectionStep(UpToRegs(g), DepsParts(g.sections), 2);
    }
  }

  predicate Sends(g: Group) {
    HasLines(g.sections)
  }

  /** The campaigns that get a message: those with a non-empty section. */
  function Senders(changes: seq<Group>): set<nat> {
    set i: nat | i < |changes| && Sends(changes[i])
  }

  lemma SendersSnoc(changes: seq<Group>)
    requires changes != []
    ensures var n := |changes| - 1;
            Senders(changes) == Senders(changes[..n]) + (if Sends(changes[n]) then {n} else {})
  {
    var n := |changes| - 1;
    assert forall i :: 0 <= i < n ==> changes[..n][i] == changes[i];
  }

  /** One message per campaign with a non-empty section, in order, and the
      count of messages sent. */
  function SendGroupedMessages(changes: seq<Group>): (s: Sent)
    ensures s.count == |s.messages| <= |changes|
    decreases |changes|
  {
    if changes == [] then Sent([], 0)
    else
      var n := |changes| - 1;
      var before := SendGroupedMessages(changes[..n]);
      var parts := Render(changes[n]);
      if parts == [] then before
      else Sent(before.messages + [Grouped(parts)], before.count + 1)
  }

  /** The count is the number of campaigns with a non-empty section. */
  lemma {:induction false} SentCount(changes: seq<Group>)
    ensures SendGroupedMessages(changes).count == |Senders(changes)|
    decreases |changes|
  {
    if changes == [] {
      assert Senders(changes) == {};
    } else {
      var n := |changes| - 1;
      SentCount(changes[..n]);
      SendersSnoc(changes);
      assert n !in Senders(changes[..n]);
    }
  }

  /** `m` is the rendered message of some campaign that has a line. */
  predicate SentFrom(changes: seq<Group>, m: Message) {
    exists i :: 0 <= i < |changes| && Sends(changes[i]) && m == Grouped(Render(changes[i]))
  }

  lemma SentFromSnoc(changes: seq<Group>, m: Message)
    requires changes != []
    ensures var n := |changes| - 1;
            SentFrom(changes, m) <==>
              SentFrom(changes[..n], m) || (Sends(changes[n]) && m == Grouped(Render(changes[n])))
  {
    var n := |changes| - 1;
    if SentFrom(changes, m) && !(Sends(changes[n]) && m == Grouped(Render(changes[n]))) {
      SentBeforeLast(changes, m);
    }
    if SentFrom(changes[..n], m) {
      SentKept(changes, m);
    }
  }

  lemma SentBeforeLast(changes: seq<Group>, m: Message)
    requires changes != []
    requires SentFrom(changes, m)
    requires !(Sends(changes[|changes| - 1]) && m == Grouped(Render(changes[|changes| - 1])))
    ensures SentFrom(changes[..|changes| - 1], m)
  {
    var init := changes[..|changes| - 1];
    var i :| 0 <= i < |changes| && Sends(changes[i]) && m == Grouped(Render(changes[i]));
    assert i < |init|;
    assert init[i] == changes[i];
    assert Sends(init[i]) && m == Grouped(Render(init[i]));
  }

  lemma SentKept(changes: seq<Group>, m: Message)
    requires changes != []
    requires SentFrom(changes[..|changes| - 1], m)
    ensures SentFrom(changes, m)
  {
    var init := changes[..|changes| - 1];
    var i :| 0 <= i < |init| && Sends(init[i]) && m == Grouped(Render(init[i]));
    assert changes[i] == init[i];
  }

  /** The messages sent are exactly the rendered campaigns that have a line. */
  lemma {:induction false} SentMessages(changes: seq<Group>)
    ensures forall m :: m in SendGroupedMessages(changes).messages <==> SentFrom(changes, m)
    decreases |changes|
  {
    if changes != [] {
      var n := |changes| - 1;
      SentMessages(changes[..n]);
      var before := SendGroupedMessages(changes[..n]).messages;
      assert SendGroupedMessages(changes).messages ==
               before + (if Sends(changes[n]) then [Grouped(Render(changes[n]))] else []);
      forall m ensures m in SendGroupedMessages(changes).messages <==> SentFrom(changes, m) {
        SentFromSnoc(changes, m);
      }
    }
  }
}
