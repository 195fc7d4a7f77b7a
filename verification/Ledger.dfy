/**
 Double-entry posting: the template of each transition edge as data
 (packages/booking-engine/src/ledger/templates.ts), its execution, and the balances read back from
 the journal (packages/booking-engine/src/ledger/service.ts).
 */
module Ledger {
  import opened BookingStates
  import opened Money
  import opened Wrappers

  datatype Account = AgencyReceivable | Sales | CostOfSales | SupplierPayable

  datatype Source = SellAmount | NetAmount | PenaltyAmount

  datatype Direction = Debit | Credit

  datatype PostingLine = PostingLine(account: Account, source: Source, direction: Direction)

  const CONFIRM_LINES := [
    PostingLine(AgencyReceivable, SellAmount, Debit),
    PostingLine(Sales, SellAmount, Credit),
    PostingLine(CostOfSales, NetAmount, Debit),
    PostingLine(SupplierPayable, NetAmount, Credit)
  ]

  const PENALTY_LINES := [
    PostingLine(AgencyReceivable, PenaltyAmount, Debit),
    PostingLine(Sales, PenaltyAmount, Credit),
    PostingLine(CostOfSales, PenaltyAmount, Debit),
    PostingLine(SupplierPayable, PenaltyAmount, Credit)
  ]

  function Opposite(d: Direction): Direction {
    if d == Debit then Credit else Debit
  }

  function Reversed(lines: seq<PostingLine>): seq<PostingLine> {
    if lines == [] then []
    else [lines[0].(direction := Opposite(lines[0].direction))] + Reversed(lines[1..])
  }

  /** POSTING_TEMPLATES: an edge without one cannot be executed. */
  function PostingTemplate(from: ItemState, to: ItemState): Option<seq<PostingLine>> {
    match (from, to)
    case (Quoted, Reserved) => Some([])
    case (Reserved, PendingConfirmation) => Some([])
    case (Reserved, Confirmed) => Some(CONFIRM_LINES)
    case (PendingConfirmation, Confirmed) => Some(CONFIRM_LINES)
    case (Confirmed, Cancelled) => Some(Reversed(CONFIRM_LINES) + PENALTY_LINES)
    case (PendingConfirmation, Cancelled) => Some(PENALTY_LINES)
    case (Reserved, Failed) => Some([])
    case (PendingConfirmation, Failed) => Some([])
    case _ => None
  }

  predicate UsesPenalty(lines: seq<PostingLine>) {
    exists i :: 0 <= i < |lines| && lines[i].source == PenaltyAmount
  }

  // ---------------------------------------------------------------------------
  // The static balance check

  function Signum(d: Direction): int {
    if d == Debit then 1 else -1
  }

  /** Debits minus credits of one amount source. */
  function SignedCount(lines: seq<PostingLine>, source: Source): int {
    if lines == [] then 0
    else SignedCount(lines[..|lines| - 1], source)
         + if lines[|lines| - 1].source == source then Signum(lines[|lines| - 1].direction) else 0
  }

  ghost predicate TemplateBalanced(lines: seq<PostingLine>) {
    forall source :: SignedCount(lines, source) == 0
  }

  /** assertTemplatesBalanced over any table of templates. */
  method AssertTemplatesBalanced(templates: seq<seq<PostingLine>>) returns (balanced: bool)
    ensures balanced <==> forall t :: 0 <= t < |templates| ==> TemplateBalanced(templates[t])
  {
    for t := 0 to |templates|
      invariant forall k :: 0 <= k < t ==> TemplateBalanced(templates[k])
    {
      var lines := templates[t];
      var bySource: map<Source, int> := map[];
      for i := 0 to |lines|
        invariant forall source :: (if source in bySource then bySource[source] else 0) == SignedCount(lines[..i], source)
      {
        var line := lines[i];
        var sum := if line.source in bySource then bySource[line.source] else 0;
        bySource := bySource[line.source := sum + Signum(line.direction)];
        assert lines[..i + 1][..i] == lines[..i];
      }
      assert lines[..|lines|] == lines;
      var todo := bySource.Keys;
      while todo != {}
        invariant todo <= bySource.Keys
        invariant forall source :: source in bySource && source !in todo ==> bySource[source] == 0
      {
        var source :| source in todo;
        if bySource[source] != 0 {
          assert SignedCount(lines, source) != 0;
          return false;
        }
        todo := todo - {source};
      }
      assert TemplateBalanced(lines);
    }
    balanced := true;
  }

  /** Every template of the table passes the static check. */
  lemma TableIsBalanced(from: ItemState, to: ItemState)
    requires PostingTemplate(from, to).Some?
    ensures TemplateBalanced(PostingTemplate(from, to).value)
  {
    forall source ensures SignedCount(PostingTemplate(from, to).value, source) == 0 {
      ConfirmCounts(source);
      ReversedConfirm();
      CountsConcat(Reversed(CONFIRM_LINES), PENALTY_LINES, source);
    }
  }

  lemma ReversedConfirm()
    ensures Reversed(CONFIRM_LINES) == [
        PostingLine(AgencyReceivable, SellAmount, Credit),
        PostingLine(Sales, SellAmount, Debit),
        PostingLine(CostOfSales, NetAmount, Credit),
        PostingLine(SupplierPayable, NetAmount, Debit)
      ]
  {
    assert CONFIRM_LINES[1..][1..][1..] == [CONFIRM_LINES[3]];
  }

  lemma FourCounts(a: PostingLine, b: PostingLine, c: PostingLine, d: PostingLine, source: Source)
    ensures SignedCount([a, b, c, d], source)
            == (if a.source == source then Signum(a.direction) else 0) + (if b.source == source then Signum(b.direction) else 0)
               + (if c.source == source then Signum(c.direction) else 0) + (if d.source == source then Signum(d.direction) else 0)
  {
    assert [a, b, c, d][..3] == [a, b, c] && [a, b, c][..2] == [a, b] && [a, b][..1] == [a] && [a][..0] == [];
    assert SignedCount([a], source) == if a.source == source then Signum(a.direction) else 0;
    assert SignedCount([a, b], source) == SignedCount([a], source) + if b.source == source then Signum(b.direction) else 0;
    assert SignedCount([a, b, c], source) == SignedCount([a, b], source) + if c.source == source then Signum(c.direction) else 0;
  }

  lemma ConfirmCounts(source: Source)
    ensures SignedCount(CONFIRM_LINES, source) == 0 && SignedCount(PENALTY_LINES, source) == 0
    ensures SignedCount(Reversed(CONFIRM_LINES), source) == 0
  {
    ReversedConfirm();
    var c, p, r := CONFIRM_LINES, PENALTY_LINES, Reversed(CONFIRM_LINES);
    FourCounts(c[0], c[1], c[2], c[3], source);
    FourCounts(p[0], p[1], p[2], p[3], source);
    FourCounts(r[0], r[1], r[2], r[3], source);
  }

  lemma {:induction false} CountsConcat(a: seq<PostingLine>, b: seq<PostingLine>, source: Source)
    ensures SignedCount(a + b, source) == SignedCount(a, source) + SignedCount(b, source)
  {
    if b == [] {
      assert a + b == a;
    } else {
      assert (a + b)[..|a + b| - 1] == a + b[..|b| - 1];
      CountsConcat(a, b[..|b| - 1], source);
    }
  }

  // ---------------------------------------------------------------------------
  // Executing a template

  /** One journal row; debits positive, credits negative. */
  datatype JournalEntry = JournalEntry(group: nat, account: Account, currency: string, amount: int, itemId: nat)

  /** The amounts a transition offers; a resolved penalty of None is a free cancellation. */
  datatype Amounts = Amounts(sell: Money, net: Money, penalty: Option<Money>)

  function AmountOf(amounts: Amounts, source: Source): Money {
    match source
    case SellAmount => amounts.sell
    case NetAmount => amounts.net
    case PenaltyAmount => if amounts.penalty.Some? then amounts.penalty.value else Zero(amounts.net.currency)
  }

  /** One entry per line whose amount is not zero. */
  function Entries(lines: seq<PostingLine>, amounts: Amounts, group: nat, itemId: nat): seq<JournalEntry> {
    if lines == [] then []
    else
      var init := Entries(lines[..|lines| - 1], amounts, group, itemId);
      var line := lines[|lines| - 1];
      var money := AmountOf(amounts, line.source);
      if money.amount == 0 then init
      else init + [JournalEntry(group, line.account, money.currency, Signum(line.direction) * money.amount, itemId)]
  }

  datatype PostingError = MissingPenaltyResolution | InvalidAmount

  datatype Posting = Posting(group: Option<nat>, entries: seq<JournalEntry>)

  /**
   postTransitionEntries for an edge that has a template. `penalty` is None when the caller resolved
   nothing, Some(None) when it resolved a free cancellation.
   */
  function PostTransitionEntries(lines: seq<PostingLine>, sell: Money, net: Money, penalty: Option<Option<Money>>, group: nat, itemId: nat)
    : Result<Posting, PostingError>
  {
    if lines == [] then Success(Posting(None, []))
    else if !ValidMoney(sell) || !ValidMoney(net) then Failure(InvalidAmount)
    else if UsesPenalty(lines) && penalty.None? then Failure(MissingPenaltyResolution)
    else
      var resolved := if penalty.Some? then penalty.value else None;
      if resolved.Some? && !ValidMoney(resolved.value) then Failure(InvalidAmount)
      else
        var entries := Entries(lines, Amounts(sell, net, resolved), group, itemId);
        Success(Posting(if entries == [] then None else Some(group), entries))
  }

  // ---------------------------------------------------------------------------
  // Balances

  /** Sum of one item's entries on one account in one currency. */
  function Balance(journal: seq<JournalEntry>, itemId: nat, account: Account, currency: string): int {
    if journal == [] then 0
    else
      var e := journal[|journal| - 1];
      Balance(journal[..|journal| - 1], itemId, account, currency)
      + if e.itemId == itemId && e.account == account && e.currency == currency then e.amount else 0
  }

  /** Sum of one transaction group in one currency; zero exactly when the group balances. */
  function GroupTotal(journal: seq<JournalEntry>, group: nat, currency: string): int {
    if journal == [] then 0
    else
      var e := journal[|journal| - 1];
      GroupTotal(journal[..|journal| - 1], group, currency) + if e.group == group && e.currency == currency then e.amount else 0
  }

  /** The (group, currency) pairs whose sum is not zero. */
  function UnbalancedTransactionGroups(journal: seq<JournalEntry>): set<(nat, string)> {
    set i | 0 <= i < |journal| && GroupTotal(journal, journal[i].group, journal[i].currency) != 0
      :: (journal[i].group, journal[i].currency)
  }

  /** The check reports a pair exactly if its sum is not zero: a group with no entry in a currency has no sum in it. */
  lemma {:induction false} ReportsExactlyTheUnbalanced(journal: seq<JournalEntry>, group: nat, currency: string)
    ensures (group, currency) in UnbalancedTransactionGroups(journal) <==> GroupTotal(journal, group, currency) != 0
  {
    if GroupTotal(journal, group, currency) != 0 {
      var i := SomeEntry(journal, group, currency);
    }
  }

  lemma {:induction false} SomeEntry(journal: seq<JournalEntry>, group: nat, currency: string) returns (i: nat)
    requires GroupTotal(journal, group, currency) != 0
    ensures i < |journal| && journal[i].group == group && journal[i].currency == currency
  {
    i := |journal| - 1;
    if !(journal[i].group == group && journal[i].currency == currency) {
      i := SomeEntry(journal[..i], group, currency);
    }
  }

  lemma {:induction false} BalanceConcat(a: seq<JournalEntry>, b: seq<JournalEntry>, itemId: nat, account: Account, currency: string)
    ensures Balance(a + b, itemId, account, currency) == Balance(a, itemId, account, currency) + Balance(b, itemId, account, currency)
  {
    if b == [] {
      assert a + b == a;
    } else {
      assert (a + b)[..|a + b| - 1] == a + b[..|b| - 1];
      BalanceConcat(a, b[..|b| - 1], itemId, account, currency);
    }
  }

  lemma {:induction false} GroupTotalConcat(a: seq<JournalEntry>, b: seq<JournalEntry>, group: nat, currency: string)
    ensures GroupTotal(a + b, group, currency) == GroupTotal(a, group, currency) + GroupTotal(b, group, currency)
  {
    if b == [] {
      assert a + b == a;
    } else {
      assert (a + b)[..|a + b| - 1] == a + b[..|b| - 1];
      GroupTotalConcat(a, b[..|b| - 1], group, currency);
    }
  }

  /** What the lines put on one account in one currency, zero lines included. */
  function LineTotal(lines: seq<PostingLine>, amounts: Amounts, account: Account, currency: string): int {
    if lines == [] then 0
    else
      var line := lines[|lines| - 1];
      LineTotal(lines[..|lines| - 1], amounts, account, currency) + OneLine(line, amounts, account, currency)
  }

  lemma {:induction false} EntriesCarryTheLines(lines: seq<PostingLine>, amounts: Amounts, group: nat, itemId: nat, other: nat, account: Account, currency: string)
    ensures Balance(Entries(lines, amounts, group, itemId), other, account, currency)
            == if other == itemId then LineTotal(lines, amounts, account, currency) else 0
  {
    if lines != [] {
      var init := Entries(lines[..|lines| - 1], amounts, group, itemId);
      EntriesCarryTheLines(lines[..|lines| - 1], amounts, group, itemId, other, account, currency);
      var line := lines[|lines| - 1];
      var money := AmountOf(amounts, line.source);
      if money.amount != 0 {
        var e := JournalEntry(group, line.account, money.currency, Signum(line.direction) * money.amount, itemId);
        assert (init + [e])[..|init|] == init;
      }
    }
  }

  function SourceTotal(lines: seq<PostingLine>, amounts: Amounts, source: Source, currency: string): int {
    if AmountOf(amounts, source).currency == currency then SignedCount(lines, source) * AmountOf(amounts, source).amount else 0
  }

  lemma SourceStep(lines: seq<PostingLine>, amounts: Amounts, source: Source, currency: string)
    requires lines != []
    ensures var line, money := lines[|lines| - 1], AmountOf(amounts, source);
            SourceTotal(lines, amounts, source, currency) == SourceTotal(lines[..|lines| - 1], amounts, source, currency)
            + if line.source == source && money.currency == currency then Signum(line.direction) * money.amount else 0
  {
    var n, a := SignedCount(lines[..|lines| - 1], source), AmountOf(amounts, source).amount;
    assert (n + 1) * a == n * a + a && (n - 1) * a == n * a - a;
  }

  /** A posted group's total is the static count of each source times its amount. */
  lemma {:induction false} GroupIsCountsTimesAmounts(lines: seq<PostingLine>, amounts: Amounts, group: nat, itemId: nat, currency: string)
    ensures GroupTotal(Entries(lines, amounts, group, itemId), group, currency)
            == SourceTotal(lines, amounts, SellAmount, currency) + SourceTotal(lines, amounts, NetAmount, currency)
               + SourceTotal(lines, amounts, PenaltyAmount, currency)
    ensures forall other :: other != group ==> GroupTotal(Entries(lines, amounts, group, itemId), other, currency) == 0
  {
    if lines != [] {
      GroupIsCountsTimesAmounts(lines[..|lines| - 1], amounts, group, itemId, currency);
      SourceStep(lines, amounts, SellAmount, currency);
      SourceStep(lines, amounts, NetAmount, currency);
      SourceStep(lines, amounts, PenaltyAmount, currency);
      var entries, init := Entries(lines, amounts, group, itemId), Entries(lines[..|lines| - 1], amounts, group, itemId);
      assert entries == init || entries[..|entries| - 1] == init;
    }
  }

  /** The static per-source check implies that whatever is posted sums to zero per currency. */
  lemma StaticCheckBalancesEveryGroup(lines: seq<PostingLine>, amounts: Amounts, group: nat, itemId: nat, other: nat, currency: string)
    requires TemplateBalanced(lines)
    ensures GroupTotal(Entries(lines, amounts, group, itemId), other, currency) == 0
  {
    GroupIsCountsTimesAmounts(lines, amounts, group, itemId, currency);
    assert SignedCount(lines, SellAmount) == 0 && SignedCount(lines, NetAmount) == 0 && SignedCount(lines, PenaltyAmount) == 0;
  }

  // ---------------------------------------------------------------------------
  // What each edge does to an item's balances

  /** The sign an account carries: receivable and cost are debited, sales and payable credited. */
  function AccountSign(account: Account): int {
    match account
    case AgencyReceivable => 1
    case Sales => -1
    case CostOfSales => 1
    case SupplierPayable => -1
  }

  /** The amount a confirmed item holds on an account. */
  function ConfirmedOn(account: Account, sell: Money, net: Money): Money {
    match account
    case AgencyReceivable => sell
    case Sales => sell
    case CostOfSales => net
    case SupplierPayable => net
  }

  function In(money: Money, currency: string): int {
    if money.currency == currency then money.amount else 0
  }

  lemma FourLines(a: PostingLine, b: PostingLine, c: PostingLine, d: PostingLine, amounts: Amounts, account: Account, currency: string)
    ensures LineTotal([a, b, c, d], amounts, account, currency)
            == OneLine(a, amounts, account, currency) + OneLine(b, amounts, account, currency)
               + OneLine(c, amounts, account, currency) + OneLine(d, amounts, account, currency)
  {
    assert [a, b, c, d][..3] == [a, b, c] && [a, b, c][..2] == [a, b] && [a, b][..1] == [a] && [a][..0] == [];
    assert LineTotal([a], amounts, account, currency) == OneLine(a, amounts, account, currency);
    assert LineTotal([a, b], amounts, account, currency) == LineTotal([a], amounts, account, currency) + OneLine(b, amounts, account, currency);
    assert LineTotal([a, b, c], amounts, account, currency) == LineTotal([a, b], amounts, account, currency) + OneLine(c, amounts, account, currency);
  }

  function OneLine(line: PostingLine, amounts: Amounts, account: Account, currency: string): int {
    if line.account == account then Signum(line.direction) * In(AmountOf(amounts, line.source), currency) else 0
  }

  lemma {:induction false} LinesConcat(a: seq<PostingLine>, b: seq<PostingLine>, amounts: Amounts, account: Account, currency: string)
    ensures LineTotal(a + b, amounts, account, currency) == LineTotal(a, amounts, account, currency) + LineTotal(b, amounts, account, currency)
  {
    if b == [] {
      assert a + b == a;
    } else {
      assert (a + b)[..|a + b| - 1] == a + b[..|b| - 1];
      LinesConcat(a, b[..|b| - 1], amounts, account, currency);
    }
  }

  /** Confirming recognizes sell and net; cancelling a confirmed item undoes that and charges the penalty. */
  lemma EdgeTotals(amounts: Amounts, account: Account, currency: string)
    ensures var confirmed := AccountSign(account) * In(ConfirmedOn(account, amounts.sell, amounts.net), currency);
            var penalty := AccountSign(account) * In(AmountOf(amounts, PenaltyAmount), currency);
            && LineTotal([], amounts, account, currency) == 0
            && LineTotal(CONFIRM_LINES, amounts, account, currency) == confirmed
            && LineTotal(PENALTY_LINES, amounts, account, currency) == penalty
            && LineTotal(Reversed(CONFIRM_LINES) + PENALTY_LINES, amounts, account, currency) == penalty - confirmed
  {
    ReversedConfirm();
    var c, p, r := CONFIRM_LINES, PENALTY_LINES, Reversed(CONFIRM_LINES);
    FourLines(c[0], c[1], c[2], c[3], amounts, account, currency);
    FourLines(p[0], p[1], p[2], p[3], amounts, account, currency);
    FourLines(r[0], r[1], r[2], r[3], amounts, account, currency);
    LinesConcat(r, p, amounts, account, currency);
  }
}
