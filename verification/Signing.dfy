/**
 From consensus events to per-block results: how blocks and votes are classified, how updates
 fold into one result per block, six counters and the window of recent results.
 */
module Signing {
  import opened Basics

  const NO_DATA := -1
  const MISSED := 0
  const PREVOTE := 1
  const PRECOMMIT := 2
  const SIGNED := 3
  const PROPOSED := 4

  const VOTE_PREVOTE := 1
  const VOTE_PRECOMMIT := 2
  const VOTE_PROPOSAL := 32

  datatype Update = Update(height: int, status: int, final: bool)

  datatype BlockEvent = BlockEvent(height: int, proposer: string, signers: seq<string>)

  datatype VoteEvent = VoteEvent(kind: int, height: int, validator: string)

  method ClassifyBlockEvent(event: BlockEvent, address: string) returns (update: Update)
    ensures update.height == event.height && update.final
    ensures update.status == PROPOSED <==> event.proposer == address
    ensures update.status == SIGNED <==> event.proposer != address && address in event.signers
    ensures update.status in {PROPOSED, SIGNED, MISSED}
    ensures update == BlockUpdate(event, address)
  {
    update := Update(event.height, MISSED, true);
    if event.proposer == address {
      return update.(status := PROPOSED);
    }
    var i := 0;
    while i < |event.signers|
      invariant 0 <= i <= |event.signers| && address !in event.signers[..i]
    {
      if event.signers[i] == address {
        return update.(status := SIGNED);
      }
      i := i + 1;
    }
  }

  function BlockUpdate(event: BlockEvent, address: string): Update {
    Update(event.height,
           if event.proposer == address then PROPOSED else if address in event.signers then SIGNED else MISSED,
           true)
  }

  function VoteUpdate(event: VoteEvent, address: string): Option<Update> {
    if event.validator != address then None
    else
      Some(Update(event.height, VoteStatus(event.kind), false))
  }

  /**
   What reaches the consumer: an update, with whether the validator is known and then bonded at
   that moment, and whether the consumer is stopped before recording it; or a new connection.
   */
  datatype Input = Seen(update: Update, bonded: Option<bool>, stopped: bool) | Reconnect

  datatype Counters = Counters(signs: nat, proposals: nat, misses: nat, prevotes: nat, precommits: nat, consecutive: nat)

  class ChainMonitor {
    var signState: int
    var blocksResults: seq<int>
    var signs: nat
    var proposals: nat
    var misses: nat
    var prevotes: nat
    var precommits: nat
    var consecutive: nat
    /** What the window began with, what reached the consumer since, and the results recorded. */
    ghost var first: seq<int>
    ghost var history: seq<Input>
    ghost var results: seq<int>

    function Numbers(): Counters
      reads this
    {
      Counters(signs, proposals, misses, prevotes, precommits, consecutive)
    }

    /**
     The monitor is an exact fold of history: the pending status is the best pending one, the
     window shows the results newest first, and each counter is the tally of its kind of result.
     */
    ghost predicate Valid()
      reads this
    {
      && signState == Best(Pending(history)) <= PROPOSED
      && results == Results(history) && ShowsResults()
    }

    constructor (window: seq<int>)
      ensures Valid() && first == blocksResults == window && history == []
    {
      signState, blocksResults := NO_DATA, window;
      signs, proposals, misses, prevotes, precommits, consecutive := 0, 0, 0, 0, 0, 0;
      first, history, results := window, [], [];
    }

    method RecordBlockResult(result: int) returns (blocks: seq<int>)
      requires blocksResults == Shown(first, results)
      modifies this`blocksResults, this`results
      ensures results == old(results) + [result] && blocks == blocksResults == Shown(first, results)
      ensures |blocks| == (if old(blocksResults) == [] then 1 else |old(blocksResults)|) && blocks[0] == result
      ensures forall i :: 0 < i < |blocks| ==> blocks[i] == old(blocksResults)[i - 1]
    {
      if |blocksResults| == 0 {
        blocksResults := [result];
      } else {
        blocksResults := [result] + blocksResults[..|blocksResults| - 1];
      }
      results := results + [result];
      blocks := blocksResults;
    }

    /** Count the last result. */
    method Count(result: int)
      requires results != [] && results[|results| - 1] == result && NO_DATA <= result <= PROPOSED
      requires Tallies(Numbers(), results[..|results| - 1])
      modifies this`signs, this`proposals, this`misses, this`prevotes, this`precommits, this`consecutive
      ensures Tallies(Numbers(), results)
    {
      if result == MISSED {
        misses, consecutive := misses + 1, consecutive + 1;
      } else if result == PRECOMMIT {
        precommits, misses, consecutive := precommits + 1, misses + 1, consecutive + 1;
      } else if result == PREVOTE {
        prevotes, misses, consecutive := prevotes + 1, misses + 1, consecutive + 1;
      } else if result == SIGNED {
        signs, consecutive := signs + 1, 0;
      } else if result == PROPOSED {
        proposals, signs, consecutive := proposals + 1, signs + 1, 0;
      }
    }

    /** Window and counters show the results recorded. */
    ghost predicate ShowsResults()
      reads this
    {
      InRange(results) && blocksResults == Shown(first, results) && Tallies(Numbers(), results)
    }

    /** Record the pending status as the result of a block, and count it. */
    method RecordPending()
      requires ShowsResults() && NO_DATA <= signState <= PROPOSED
      modifies this
      ensures ShowsResults() && signState == NO_DATA && results == old(results) + [old(signState)]
      ensures first == old(first) && history == old(history)
    {
      var blocks := RecordBlockResult(signState);
      assert results[..|results| - 1] == old(results);
      Count(signState);
      signState := NO_DATA;
    }

    /** One update or new connection. */
    method Accept(input: Input)
      requires Valid() && (input.Seen? ==> MISSED <= input.update.status <= PROPOSED)
      modifies this
      ensures Valid() && first == old(first) && history == old(history) + [input]
    {
      HistoryAppended(history, input);
      history := history + [input];
      if input.Reconnect? {
        signState := NO_DATA;
        return;
      }
      if input.bonded.None? {
        return;
      }
      if input.update.status > signState && input.bonded.value {
        signState := input.update.status;
      }
      if !input.update.final {
        return;
      }
      if input.stopped {
        signState := NO_DATA;
        return;
      }
      RecordPending();
    }

    /** The consumer of updates, over any stream of them and any number of connections. */
    method Consume(inputs: seq<Input>)
      requires Valid() && ValidInputs(inputs)
      modifies this
      ensures Valid() && first == old(first) && history == old(history) + inputs
    {
      ghost var start, began := history, first;
      TakenOneByOne(start, inputs);
      for i := 0 to |inputs|
        invariant Valid() && first == began && history == start + inputs[..i]
      {
        Accept(inputs[i]);
      }
    }
  }

  lemma TakenOneByOne(start: seq<Input>, inputs: seq<Input>)
    ensures start + inputs[..0] == start && start + inputs[..|inputs|] == start + inputs
    ensures forall i :: 0 <= i < |inputs| ==> start + inputs[..i] + [inputs[i]] == start + inputs[..i + 1]
  {
  }

  /** The updates that count towards the next result: seen while bonded since the last one, on this connection. */
  function Pending(inputs: seq<Input>): seq<Update> {
    if inputs == [] then []
    else
      var last := inputs[|inputs| - 1];
      if last.Reconnect? then []
      else if last.bonded.None? then Pending(inputs[..|inputs| - 1])
      else if last.update.final then []
      else Pending(inputs[..|inputs| - 1]) + (if last.bonded.value then [last.update] else [])
  }

  /** The best status among updates, or no data. */
  function Best(updates: seq<Update>): (b: int)
    ensures b >= NO_DATA
  {
    if updates == [] then NO_DATA
    else
      var before := Best(updates[..|updates| - 1]);
      var last := updates[|updates| - 1];
      if last.status > before then last.status else before
  }

  lemma {:induction false} BestIsMaximum(updates: seq<Update>)
    ensures forall i :: 0 <= i < |updates| ==> updates[i].status <= Best(updates)
    ensures Best(updates) == NO_DATA || exists i :: 0 <= i < |updates| && updates[i].status == Best(updates)
  {
    if updates != [] {
      var before := updates[..|updates| - 1];
      BestIsMaximum(before);
      assert forall i :: 0 <= i < |before| ==> before[i] == updates[i];
    }
  }

  predicate Recorded(input: Input) {
    input.Seen? && input.bonded.Some? && input.update.final && !input.stopped
  }

  /** The recorded results, in order: each the best of what was pending and of the final update. */
  function Results(inputs: seq<Input>): seq<int> {
    if inputs == [] then []
    else
      var before, last := inputs[..|inputs| - 1], inputs[|inputs| - 1];
      if Recorded(last)
      then Results(before) + [Best(Pending(before) + (if last.bonded.value then [last.update] else []))]
      else Results(before)
  }

  datatype Kind = Signs | Proposals | Misses | Prevotes | Precommits | NoData

  predicate IsKind(kind: Kind, result: int) {
    match kind
    case Signs => result >= SIGNED
    case Proposals => result == PROPOSED
    case Misses => MISSED <= result < SIGNED
    case Prevotes => result == PREVOTE
    case Precommits => result == PRECOMMIT
    case NoData => result == NO_DATA
  }

  /** How many results are of a kind. */
  function CountOf(kind: Kind, results: seq<int>): nat {
    if results == [] then 0
    else CountOf(kind, results[..|results| - 1]) + (if IsKind(kind, results[|results| - 1]) then 1 else 0)
  }

  /** Missed results since the last signed one; results without data do not count and do not interrupt. */
  function MissesSinceSigned(results: seq<int>): nat {
    if results == [] then 0
    else
      var last := results[|results| - 1];
      if last >= SIGNED then 0
      else MissesSinceSigned(results[..|results| - 1]) + (if last == NO_DATA then 0 else 1)
  }

  /** A window of results, newest first, then what it began with; an unset one shows just the last. */
  function Shown(first: seq<int>, results: seq<int>): seq<int> {
    seq(if first == [] && results != [] then 1 else |first|, i requires 0 <= i < |first| || (i == 0 && results != []) =>
      if i < |results| then results[|results| - 1 - i] else first[i - |results|])
  }

  ghost predicate ValidInputs(inputs: seq<Input>) {
    forall i :: 0 <= i < |inputs| && inputs[i].Seen? ==> MISSED <= inputs[i].update.status <= PROPOSED
  }

  predicate InRange(results: seq<int>) {
    forall i :: 0 <= i < |results| ==> NO_DATA <= results[i] <= PROPOSED
  }

  /** The counters are the exact tallies of a result history. */
  ghost predicate Tallies(c: Counters, results: seq<int>) {
    && c.signs == CountOf(Signs, results)
    && c.proposals == CountOf(Proposals, results)
    && c.misses == CountOf(Misses, results)
    && c.prevotes == CountOf(Prevotes, results)
    && c.precommits == CountOf(Precommits, results)
    && c.consecutive == MissesSinceSigned(results)
  }

  lemma BestAppended(updates: seq<Update>, u: Update)
    ensures Best(updates + [u]) == if u.status > Best(updates) then u.status else Best(updates)
  {
    assert (updates + [u])[..|updates|] == updates;
  }

  /** What one more input makes of the history. */
  lemma HistoryAppended(before: seq<Input>, last: Input)
    ensures var result := Best(Pending(before) + (if last.Seen? && last.bonded == Some(true) then [last.update] else []));
            && Results(before + [last]) == (if Recorded(last) then Results(before) + [result] else Results(before))
            && (last.Seen? && last.bonded.Some? && !last.update.final ==> Best(Pending(before + [last])) == result)
            && (last.Seen? && last.bonded.None? ==> Pending(before + [last]) == Pending(before))
            && (last.Reconnect? || (last.bonded.Some? && last.update.final) ==> Pending(before + [last]) == [])
            && result == if last.Seen? && last.bonded == Some(true) && last.update.status > Best(Pending(before))
                         then last.update.status else Best(Pending(before))
  {
    assert (before + [last])[..|before|] == before;
    assert Pending(before) + [] == Pending(before);
    if last.Seen? && last.bonded == Some(true) {
      BestAppended(Pending(before), last.update);
    }
  }

  /** A result recorded while the validator is bonded is never without data. */
  lemma BondedResultHasData(before: seq<Input>, last: Input)
    requires Recorded(last) && last.bonded == Some(true) && last.update.status >= MISSED
    ensures var results := Results(before + [last]);
            results != [] && results[|results| - 1] >= last.update.status >= MISSED
  {
    HistoryAppended(before, last);
  }

  /** A block of a known validator that the consumer was not stopped before recording, whether bonded or not. */
  predicate IsBlockSeen(input: Input) {
    match input
    case Seen(update, known, stopped) => update.final && known != None && !stopped
    case Reconnect => false
  }

  function BlocksSeen(inputs: seq<Input>): nat {
    if inputs == [] then 0
    else BlocksSeen(inputs[..|inputs| - 1]) + (if IsBlockSeen(inputs[|inputs| - 1]) then 1 else 0)
  }

  /** Every such block gets one result. */
  lemma {:induction false} OneResultPerBlock(inputs: seq<Input>)
    ensures |Results(inputs)| == BlocksSeen(inputs)
  {
    if inputs != [] {
      OneResultPerBlock(inputs[..|inputs| - 1]);
    }
  }

  /** A block while not bonded gets what was pending from before, and no data when nothing was. */
  lemma UnbondedBlock(before: seq<Input>, block: Update)
    requires block.final
    ensures var results := Results(before + [Seen(block, Some(false), false)]);
            && results == Results(before) + [Best(Pending(before))]
            && (Pending(before) == [] ==> results == Results(before) + [-1])
  {
    HistoryAppended(before, Seen(block, Some(false), false));
  }

  /** The input starts the count of updates anew: a new connection, or a block of a known validator. */
  predicate Restarts(input: Input) {
    match input
    case Seen(update, known, _) => update.final && known != None
    case Reconnect => true
  }

  /** An update is pending exactly when it was a vote seen while bonded and nothing has restarted the count since. */
  lemma {:induction false} PendingExactly(inputs: seq<Input>, u: Update)
    ensures u in Pending(inputs) <==>
            exists j :: && 0 <= j < |inputs| && IsBondedVote(inputs[j], u)
                        && (forall m :: j < m < |inputs| ==> !Restarts(inputs[m]))
  {
    if inputs != [] {
      var before, last := inputs[..|inputs| - 1], inputs[|inputs| - 1];
      PendingExactly(before, u);
      assert forall j :: 0 <= j < |before| ==> before[j] == inputs[j];
      if IsBondedVote(last, u) {
        assert IsBondedVote(inputs[|before|], u);
      }
    }
  }

  predicate IsBondedVote(input: Input, u: Update) {
    input.Seen? && input.update == u && !u.final && input.bonded == Some(true)
  }

  /** Results are no data, or one of the statuses of a block. */
  lemma {:induction false} ResultsInRange(inputs: seq<Input>)
    requires ValidInputs(inputs)
    ensures InRange(Results(inputs)) && Best(Pending(inputs)) <= PROPOSED
  {
    if inputs != [] {
      var before, last := inputs[..|inputs| - 1], inputs[|inputs| - 1];
      ResultsInRange(before);
      HistoryAppended(before, last);
      assert inputs == before + [last];
    }
  }

  /** What the kinds of result are, by their stored numbers. */
  lemma KindsAre(result: int)
    requires -1 <= result <= 4
    ensures IsKind(NoData, result) <==> result == -1
    ensures IsKind(Misses, result) <==> result in {0, 1, 2}
    ensures IsKind(Prevotes, result) <==> result == 1
    ensures IsKind(Precommits, result) <==> result == 2
    ensures IsKind(Signs, result) <==> result in {3, 4}
    ensures IsKind(Proposals, result) <==> result == 4
  {
  }

  /** The consecutive misses are the misses after the last signed block. */
  lemma {:induction false} ConsecutiveExactly(results: seq<int>, k: nat)
    requires InRange(results) && k <= |results| && (k > 0 ==> results[k - 1] >= 3)
    requires forall j :: k <= j < |results| ==> results[j] < 3
    ensures MissesSinceSigned(results) == CountOf(Misses, results[k..])
  {
    if k < |results| {
      var before := results[..|results| - 1];
      ConsecutiveExactly(before, k);
      assert results[k..][..|results[k..]| - 1] == before[k..];
    }
  }

  /** Every block seen is counted once, as signed, missed or without data. */
  lemma BlocksPartition(inputs: seq<Input>)
    requires ValidInputs(inputs)
    ensures var results := Results(inputs);
            CountOf(Signs, results) + CountOf(Misses, results) + CountOf(NoData, results) == BlocksSeen(inputs)
  {
    ResultsInRange(inputs);
    KindsPartition(Results(inputs));
    OneResultPerBlock(inputs);
  }

  /** Signed, missed and no-data results are all the results. */
  lemma {:induction false} KindsPartition(results: seq<int>)
    requires InRange(results)
    ensures CountOf(Signs, results) + CountOf(Misses, results) + CountOf(NoData, results) == |results|
  {
    if results != [] {
      KindsPartition(results[..|results| - 1]);
    }
  }

  function VoteStatus(kind: int): int {
    if kind == VOTE_PREVOTE then PREVOTE
    else if kind == VOTE_PRECOMMIT then PRECOMMIT
    else if kind == VOTE_PROPOSAL then PROPOSED
    else MISSED
  }

  /** The updates that the votes seen give for a validator. */
  function VoteUpdates(votes: seq<VoteEvent>, address: string): seq<Update> {
    if votes == [] then []
    else
      var u := VoteUpdate(votes[|votes| - 1], address);
      VoteUpdates(votes[..|votes| - 1], address) + (if u.Some? then [u.value] else [])
  }

  predicate Voted(votes: seq<VoteEvent>, address: string, kind: int) {
    exists i :: 0 <= i < |votes| && votes[i].validator == address && votes[i].kind == kind
  }

  predicate HasStatus(updates: seq<Update>, status: int) {
    exists i :: 0 <= i < |updates| && updates[i].status == status
  }

  lemma {:induction false} VotesGiveStatus(votes: seq<VoteEvent>, address: string, kind: int)
    requires kind in {VOTE_PREVOTE, VOTE_PRECOMMIT, VOTE_PROPOSAL}
    ensures HasStatus(VoteUpdates(votes, address), VoteStatus(kind)) <==> Voted(votes, address, kind)
  {
    if votes != [] {
      var before, last := votes[..|votes| - 1], votes[|votes| - 1];
      VotesGiveStatus(before, address, kind);
      var us, us' := VoteUpdates(before, address), VoteUpdates(votes, address);
      assert forall i :: 0 <= i < |us| ==> us'[i] == us[i];
      assert forall i :: 0 <= i < |before| ==> votes[i] == before[i];
      if last.validator == address && last.kind == kind {
        assert us'[|us|].status == VoteStatus(kind) && votes[|before|] == last;
      }
    }
  }

  lemma {:induction false} VoteUpdatesRange(votes: seq<VoteEvent>, address: string)
    ensures forall i :: 0 <= i < |VoteUpdates(votes, address)| ==>
              VoteUpdates(votes, address)[i].status in {MISSED, PREVOTE, PRECOMMIT, PROPOSED}
  {
    if votes != [] {
      VoteUpdatesRange(votes[..|votes| - 1], address);
    }
  }

  /**
   What a result means for a validator bonded throughout: proposed (4) if it proposed the block or
   a proposal vote (kind 32) of it was seen since the previous block, else signed (3) if among the
   signers, else the best vote seen, precommit (2) or prevote (1), else missed (0); never no data.
   */
  lemma ResultMeaning(votes: seq<VoteEvent>, block: BlockEvent, address: string)
    ensures var r := Best(VoteUpdates(votes, address) + [BlockUpdate(block, address)]);
            if block.proposer == address || Voted(votes, address, 32) then r == 4
            else if address in block.signers then r == 3
            else if Voted(votes, address, 2) then r == 2
            else if Voted(votes, address, 1) then r == 1
            else r == 0
  {
    var us := VoteUpdates(votes, address);
    VotesGiveStatus(votes, address, VOTE_PROPOSAL);
    VotesGiveStatus(votes, address, VOTE_PRECOMMIT);
    VotesGiveStatus(votes, address, VOTE_PREVOTE);
    VoteUpdatesRange(votes, address);
    BestAppended(us, BlockUpdate(block, address));
    BestIsMaximum(us);
    assert forall s :: HasStatus(us, s) ==> s <= Best(us);
    assert Best(us) != NO_DATA ==> HasStatus(us, Best(us));
  }

  /** Updates as they reach the consumer while the validator is bonded. */
  function Stretch(updates: seq<Update>): seq<Input> {
    seq(|updates|, i requires 0 <= i < |updates| => Seen(updates[i], Some(true), false))
  }

  /** The inputs of one round of a bonded validator: votes, then the block they came before. */
  function BondedRound(votes: seq<VoteEvent>, block: BlockEvent, address: string): seq<Input> {
    Stretch(VoteUpdates(votes, address) + [BlockUpdate(block, address)])
  }

  /** All updates of a bonded stretch are pending, in order. */
  lemma {:induction false} BondedStretch(before: seq<Input>, updates: seq<Update>)
    requires Pending(before) == []
    requires forall i :: 0 <= i < |updates| ==> !updates[i].final
    ensures Pending(before + Stretch(updates)) == updates && Results(before + Stretch(updates)) == Results(before)
  {
    if updates == [] {
      assert before + Stretch(updates) == before;
    } else {
      var n := |updates| - 1;
      BondedStretch(before, updates[..n]);
      assert (before + Stretch(updates))[..|before| + n] == before + Stretch(updates[..n]);
      assert updates == updates[..n] + [updates[n]];
    }
  }

  lemma StretchAppended(before: seq<Input>, updates: seq<Update>, last: Update)
    ensures before + Stretch(updates + [last]) == before + Stretch(updates) + [Seen(last, Some(true), false)]
  {
  }

  lemma FinalUpdateRecords(before: seq<Input>, update: Update)
    requires update.final
    ensures var inputs := before + [Seen(update, Some(true), false)];
            Results(inputs) == Results(before) + [Best(Pending(before) + [update])] && Pending(inputs) == []
  {
    var inputs := before + [Seen(update, Some(true), false)];
    assert inputs[..|inputs| - 1] == before;
  }

  /** So the result recorded for a round of a bonded validator is the one `ResultMeaning` describes. */
  lemma RoundResult(before: seq<Input>, votes: seq<VoteEvent>, block: BlockEvent, address: string)
    requires Pending(before) == []
    ensures Results(before + BondedRound(votes, block, address)) ==
            Results(before) + [Best(VoteUpdates(votes, address) + [BlockUpdate(block, address)])]
    ensures Pending(before + BondedRound(votes, block, address)) == []
  {
    var us, last := VoteUpdates(votes, address), BlockUpdate(block, address);
    VoteUpdatesNotFinal(votes, address);
    BondedStretch(before, us);
    FinalUpdateRecords(before + Stretch(us), last);
    StretchAppended(before, us, last);
  }

  lemma {:induction false} VoteUpdatesNotFinal(votes: seq<VoteEvent>, address: string)
    ensures forall i :: 0 <= i < |VoteUpdates(votes, address)| ==> !VoteUpdates(votes, address)[i].final
  {
    if votes != [] {
      VoteUpdatesNotFinal(votes[..|votes| - 1], address);
    }
  }

  /** The votes of a round for the height itself. */
  function OfHeight(votes: seq<VoteEvent>, height: int): seq<VoteEvent> {
    if votes == [] then []
    else
      var last := votes[|votes| - 1];
      OfHeight(votes[..|votes| - 1], height) + (if last.height == height then [last] else [])
  }

  /** No vote of the validator is better than `bound`. */
  predicate VotesAtMost(votes: seq<VoteEvent>, address: string, bound: int) {
    forall i :: 0 <= i < |votes| && votes[i].validator == address ==> VoteStatus(votes[i].kind) <= bound
  }

  /** The same of its votes for the height, and of those for other heights. */
  predicate OwnAtMost(votes: seq<VoteEvent>, height: int, address: string, bound: int) {
    forall i :: 0 <= i < |votes| && votes[i].validator == address && votes[i].height == height ==>
      VoteStatus(votes[i].kind) <= bound
  }

  predicate ForeignAtMost(votes: seq<VoteEvent>, height: int, address: string, bound: int) {
    forall i :: 0 <= i < |votes| && votes[i].validator == address && votes[i].height != height ==>
      VoteStatus(votes[i].kind) <= bound
  }

  lemma AtMostAppended(before: seq<VoteEvent>, last: VoteEvent, height: int, address: string, bound: int)
    ensures VotesAtMost(before + [last], address, bound) <==>
            VotesAtMost(before, address, bound) && (last.validator == address ==> VoteStatus(last.kind) <= bound)
    ensures OwnAtMost(before + [last], height, address, bound) <==>
            && OwnAtMost(before, height, address, bound)
            && (last.validator == address && last.height == height ==> VoteStatus(last.kind) <= bound)
  {
    var votes := before + [last];
    assert votes[|before|] == last && forall i :: 0 <= i < |before| ==> votes[i] == before[i];
  }

  lemma {:induction false} BestOfVotes(votes: seq<VoteEvent>, address: string, bound: int)
    requires bound >= NO_DATA
    ensures Best(VoteUpdates(votes, address)) <= bound <==> VotesAtMost(votes, address, bound)
  {
    if votes != [] {
      var before, last := votes[..|votes| - 1], votes[|votes| - 1];
      BestOfVotes(before, address, bound);
      AtMostAppended(before, last, 0, address, bound);
      assert votes == before + [last];
      var us := VoteUpdates(before, address);
      if last.validator == address {
        BestAppended(us, VoteUpdate(last, address).value);
      } else {
        assert us + [] == us;
      }
    }
  }

  lemma {:induction false} OfHeightAtMost(votes: seq<VoteEvent>, height: int, address: string, bound: int)
    ensures VotesAtMost(OfHeight(votes, height), address, bound) <==> OwnAtMost(votes, height, address, bound)
  {
    if votes != [] {
      var before, last := votes[..|votes| - 1], votes[|votes| - 1];
      OfHeightAtMost(before, height, address, bound);
      AtMostAppended(before, last, height, address, bound);
      AtMostAppended(OfHeight(before, height), last, height, address, bound);
      assert votes == before + [last];
      assert OfHeight(before, height) + [] == OfHeight(before, height);
    }
  }

  /** What a round records, as a maximum: the block's own status or the best vote, whatever its height. */
  function RoundBest(votes: seq<VoteEvent>, block: BlockEvent, address: string): int {
    Best(VoteUpdates(votes, address) + [BlockUpdate(block, address)])
  }

  lemma RoundAtMost(votes: seq<VoteEvent>, block: BlockEvent, address: string, bound: int)
    requires bound >= NO_DATA
    ensures RoundBest(votes, block, address) <= bound <==>
            VotesAtMost(votes, address, bound) && BlockUpdate(block, address).status <= bound
  {
    BestOfVotes(votes, address, bound);
    BestAppended(VoteUpdates(votes, address), BlockUpdate(block, address));
  }

  lemma ForeignBest(votes: seq<VoteEvent>, block: BlockEvent, address: string)
    ensures var own := RoundBest(OfHeight(votes, block.height), block, address);
            RoundBest(votes, block, address) == own <==> ForeignAtMost(votes, block.height, address, own)
  {
    var own := OfHeight(votes, block.height);
    var all, mine := RoundBest(votes, block, address), RoundBest(own, block, address);
    RoundAtMost(votes, block, address, all);
    RoundAtMost(votes, block, address, mine);
    RoundAtMost(own, block, address, all);
    RoundAtMost(own, block, address, mine);
    OfHeightAtMost(votes, block.height, address, all);
    OfHeightAtMost(votes, block.height, address, mine);
  }

  /**
   Heights are not compared: the votes counted for a block are those that arrive after the block
   before it, in whatever order. What is recorded is what the votes of the block's own height give
   exactly when no vote of the validator for another height is better than that.
   */
  lemma ForeignVotes(before: seq<Input>, votes: seq<VoteEvent>, block: BlockEvent, address: string)
    requires Pending(before) == []
    ensures var own := OfHeight(votes, block.height);
            Results(before + BondedRound(votes, block, address)) == Results(before + BondedRound(own, block, address)) <==>
            ForeignAtMost(votes, block.height, address, RoundBest(own, block, address))
  {
    var own := OfHeight(votes, block.height);
    RoundResult(before, votes, block, address);
    RoundResult(before, own, block, address);
    ForeignBest(votes, block, address);
    SameLast(Results(before), RoundBest(votes, block, address), RoundBest(own, block, address));
  }

  lemma SameLast(results: seq<int>, a: int, b: int)
    ensures results + [a] == results + [b] <==> a == b
  {
    assert (results + [a])[|results|] == a && (results + [b])[|results|] == b;
  }

  /** A precommit for block 5 that arrives after block 5 makes a missed block 6 a precommit miss. */
  lemma LateVoteCountsForNextBlock(before: seq<Input>, address: string, proposer: string)
    requires Pending(before) == [] && proposer != address
    ensures var late, missed := VoteEvent(VOTE_PRECOMMIT, 5, address), BlockEvent(6, proposer, []);
            && Results(before + BondedRound([], missed, address)) == Results(before) + [MISSED]
            && Results(before + BondedRound([late], missed, address)) == Results(before) + [PRECOMMIT]
  {
    var late, missed := VoteEvent(VOTE_PRECOMMIT, 5, address), BlockEvent(6, proposer, []);
    UnsignedRound(before, [], missed, address);
    assert [late][0] == late;
    UnsignedRound(before, [late], missed, address);
  }

  lemma UnsignedRound(before: seq<Input>, votes: seq<VoteEvent>, block: BlockEvent, address: string)
    requires Pending(before) == [] && block.proposer != address && address !in block.signers
    requires !Voted(votes, address, VOTE_PROPOSAL) && !Voted(votes, address, VOTE_PREVOTE)
    ensures Results(before + BondedRound(votes, block, address)) ==
            Results(before) + [if Voted(votes, address, VOTE_PRECOMMIT) then PRECOMMIT else MISSED]
  {
    RoundResult(before, votes, block, address);
    ResultMeaning(votes, block, address);
  }
}
