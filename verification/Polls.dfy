/** Poll ballots and the counts kept beside them. Each operation is one IMMEDIATE transaction. */
module Polls {
  import opened Wrappers

  /** `expiresAt` is None when the stored text is not a timestamp. */
  datatype Poll = Poll(expiresAt: Option<int>, expired: bool, multiple: bool, votesCount: nat, votersCount: nat)

  datatype PollOption = PollOption(poll: nat, title: string, index: nat, votesCount: nat)

  /** A row of `poll_votes`; the table is UNIQUE over all three columns. */
  datatype Vote = Vote(poll: nat, voter: string, option: nat)

  datatype Tables = Tables(polls: map<nat, Poll>, options: map<nat, PollOption>, votes: set<Vote>)

  predicate PollIsExpired(p: Poll, now: int) {
    p.expired || p.expiresAt.None? || p.expiresAt.value <= now
  }

  function VotesIn(t: Tables, poll: nat): set<Vote> {
    set v | v in t.votes && v.poll == poll
  }

  function VotersIn(t: Tables, poll: nat): set<string> {
    set v | v in t.votes && v.poll == poll :: v.voter
  }

  function VotesFor(t: Tables, option: nat): set<Vote> {
    set v | v in t.votes && v.option == option
  }

  function BallotOf(t: Tables, poll: nat, voter: string): set<Vote> {
    set v | v in t.votes && v.poll == poll && v.voter == voter
  }

  /** One choice of a ballot: checks the option, inserts the row, bumps the option's count. */
  function CastOne(t: Tables, poll: nat, voter: string, option: nat): Option<Tables> {
    var v := Vote(poll, voter, option);
    if option !in t.options || t.options[option].poll != poll || v in t.votes then None
    else
      var o := t.options[option];
      Some(t.(votes := t.votes + {v}, options := t.options[option := o.(votesCount := o.votesCount + 1)]))
  }

  function Cast(t: Tables, poll: nat, voter: string, choices: seq<nat>): Option<Tables>
    decreases |choices|
  {
    if choices == [] then Some(t)
    else
      match CastOne(t, poll, voter, choices[0])
      case None => None
      case Some(t') => Cast(t', poll, voter, choices[1..])
  }

  function Recount(t: Tables, poll: nat): Tables
    requires poll in t.polls
  {
    t.(polls := t.polls[poll := t.polls[poll].(votesCount := |VotesIn(t, poll)|, votersCount := |VotersIn(t, poll)|)])
  }

  /** `vote_in_poll`: the tables after it, unchanged when it fails. */
  function VoteInPoll(t: Tables, poll: nat, voter: string, choices: seq<nat>, now: int): (Tables, Result<(), AppError>) {
    if choices == [] then (t, Err(Validation))
    else if poll !in t.polls then (t, Err(NotFound))
    else if PollIsExpired(t.polls[poll], now) then (t, Err(Validation))
    else if !t.polls[poll].multiple && |choices| > 1 then (t, Err(Validation))
    else if BallotOf(t, poll, voter) != {} then (t, Err(Validation))
    else
      match Cast(t, poll, voter, choices)
      case None => (t, Err(Validation))
      case Some(t') => if poll in t'.polls then (Recount(t', poll), Ok(())) else (t, Err(NotFound))
  }

  /** Inserts the options of a new poll in order; their generated ids are primary keys. */
  function AddOptions(t: Tables, poll: nat, ids: seq<nat>, titles: seq<string>, index: nat): Option<Tables>
    requires |ids| == |titles|
    decreases |ids|
  {
    if ids == [] then Some(t)
    else if ids[0] in t.options then None
    else AddOptions(t.(options := t.options[ids[0] := PollOption(poll, titles[0], index, 0)]), poll, ids[1..], titles[1..], index + 1)
  }

  /** The poll part of inserting a status. */
  function CreatePoll(t: Tables, poll: nat, ids: seq<nat>, titles: seq<string>, expiresAt: int, multiple: bool)
    : (Tables, Result<(), AppError>)
    requires |ids| == |titles|
  {
    if poll in t.polls then (t, Err(Database))
    else
      match AddOptions(t.(polls := t.polls[poll := Poll(Some(expiresAt), false, multiple, 0, 0)]), poll, ids, titles, 0)
      case None => (t, Err(Database))
      case Some(t') => (t', Ok(()))
  }

  class Store {
    var t: Tables

    method CastBallot(poll: nat, voter: string, choices: seq<nat>, now: int) returns (r: Result<(), AppError>)
      modifies this
      ensures t == VoteInPoll(old(t), poll, voter, choices, now).0
      ensures r == VoteInPoll(old(t), poll, voter, choices, now).1
      ensures r.Err? ==> t == old(t)
    {
      if choices == [] {
        return Err(Validation);
      }
      var begun := t;
      if poll !in t.polls {
        return Err(NotFound);
      }
      if PollIsExpired(t.polls[poll], now) {
        return Err(Validation);
      }
      if !t.polls[poll].multiple && |choices| > 1 {
        return Err(Validation);
      }
      if BallotOf(t, poll, voter) != {} {
        return Err(Validation);
      }
      var i := 0;
      while i < |choices|
        invariant 0 <= i <= |choices|
        invariant Cast(begun, poll, voter, choices) == Cast(t, poll, voter, choices[i..])
        invariant t.polls == begun.polls
      {
        var choice := choices[i];
        assert choices[i..][0] == choice && choices[i..][1..] == choices[i + 1..];
        if choice !in t.options || t.options[choice].poll != poll || Vote(poll, voter, choice) in t.votes {
          t := begun; // ROLLBACK
          return Err(Validation);
        }
        t := t.(votes := t.votes + {Vote(poll, voter, choice)});
        var o := t.options[choice];
        t := t.(options := t.options[choice := o.(votesCount := o.votesCount + 1)]);
        i := i + 1;
      }
      t := Recount(t, poll);
      r := Ok(());
    }

    /** The poll part of `insert_status_with_media_and_poll`: the poll, then its options one by one. */
    method InsertPoll(poll: nat, ids: seq<nat>, titles: seq<string>, expiresAt: int, multiple: bool)
      returns (r: Result<(), AppError>)
      requires |ids| == |titles|
      modifies this
      ensures t == CreatePoll(old(t), poll, ids, titles, expiresAt, multiple).0
      ensures r == CreatePoll(old(t), poll, ids, titles, expiresAt, multiple).1
      ensures r.Err? ==> t == old(t)
    {
      var begun := t;
      if poll in t.polls {
        return Err(Database);
      }
      t := t.(polls := t.polls[poll := Poll(Some(expiresAt), false, multiple, 0, 0)]);
      ghost var inserted := t;
      for i := 0 to |ids|
        invariant AddOptions(inserted, poll, ids, titles, 0) == AddOptions(t, poll, ids[i..], titles[i..], i)
      {
        assert ids[i..][0] == ids[i] && ids[i..][1..] == ids[i + 1..] && titles[i..][1..] == titles[i + 1..];
        if ids[i] in t.options {
          t := begun; // ROLLBACK
          return Err(Database);
        }
        t := t.(options := t.options[ids[i] := PollOption(poll, titles[i], i, 0)]);
      }
      r := Ok(());
    }
  }

  // ---------------------------------------------------------------------------
  // The invariant
  // ---------------------------------------------------------------------------

  /** Rows refer to each other, and each option's count is its number of vote rows. */
  ghost predicate OptionsInv(t: Tables) {
    && (forall v :: v in t.votes ==> v.poll in t.polls && v.option in t.options && t.options[v.option].poll == v.poll)
    && (forall o :: o in t.options ==> t.options[o].poll in t.polls && t.options[o].votesCount == |VotesFor(t, o)|)
  }

  ghost predicate PollsInv(t: Tables) {
    forall p :: p in t.polls ==>
      && t.polls[p].votesCount == |VotesIn(t, p)|
      && t.polls[p].votersCount == |VotersIn(t, p)|
      && (!t.polls[p].multiple ==> OneVoteEach(t, p))
  }

  /** In a single-choice poll nobody has two rows. */
  ghost predicate OneVoteEach(t: Tables, poll: nat) {
    forall v, w :: v in t.votes && w in t.votes && v.poll == poll && w.poll == poll && v.voter == w.voter ==> v == w
  }

  ghost predicate Inv(t: Tables) {
    OptionsInv(t) && PollsInv(t)
  }

  /** The empty tables satisfy it. */
  lemma StartIsSound()
    ensures Inv(Tables(map[], map[], {}))
  {
  }

  lemma CastOneKeepsOptions(t: Tables, poll: nat, voter: string, option: nat)
    requires OptionsInv(t) && poll in t.polls && CastOne(t, poll, voter, option).Some?
    ensures OptionsInv(CastOne(t, poll, voter, option).value)
  {
    var t' := CastOne(t, poll, voter, option).value;
    var v := Vote(poll, voter, option);
    forall o | o in t'.options
      ensures t'.options[o].poll in t'.polls && t'.options[o].votesCount == |VotesFor(t', o)|
    {
      if o == option {
        assert VotesFor(t', o) == VotesFor(t, o) + {v};
      } else {
        assert VotesFor(t', o) == VotesFor(t, o);
      }
    }
  }

  function RowsOf(poll: nat, voter: string, choices: seq<nat>): set<Vote> {
    set i | 0 <= i < |choices| :: Vote(poll, voter, choices[i])
  }

  lemma {:induction false} CastKeepsOptions(t: Tables, poll: nat, voter: string, choices: seq<nat>)
    requires OptionsInv(t) && poll in t.polls && Cast(t, poll, voter, choices).Some?
    ensures OptionsInv(Cast(t, poll, voter, choices).value)
    decreases |choices|
  {
    if choices != [] {
      CastOneKeepsOptions(t, poll, voter, choices[0]);
      CastKeepsOptions(CastOne(t, poll, voter, choices[0]).value, poll, voter, choices[1..]);
    }
  }

  /** A ballot that goes through adds exactly its own rows, one per choice. */
  lemma {:induction false} CastAddsBallot(t: Tables, poll: nat, voter: string, choices: seq<nat>)
    requires Cast(t, poll, voter, choices).Some?
    ensures var t' := Cast(t, poll, voter, choices).value;
      && t'.polls == t.polls && t'.votes == t.votes + RowsOf(poll, voter, choices)
      && t.votes !! RowsOf(poll, voter, choices) && |RowsOf(poll, voter, choices)| == |choices|
    decreases |choices|
  {
    if choices == [] {
      assert RowsOf(poll, voter, choices) == {};
    } else {
      var next := CastOne(t, poll, voter, choices[0]).value;
      CastAddsBallot(next, poll, voter, choices[1..]);
      RowsOfCons(poll, voter, choices);
    }
  }

  lemma RowsOfCons(poll: nat, voter: string, choices: seq<nat>)
    requires choices != []
    ensures RowsOf(poll, voter, choices) == {Vote(poll, voter, choices[0])} + RowsOf(poll, voter, choices[1..])
  {
    var rest := choices[1..];
    forall v | v in RowsOf(poll, voter, choices)
      ensures v in {Vote(poll, voter, choices[0])} + RowsOf(poll, voter, rest)
    {
      var i :| 0 <= i < |choices| && v == Vote(poll, voter, choices[i]);
      if i > 0 { assert v == Vote(poll, voter, rest[i - 1]); }
    }
    forall v | v in RowsOf(poll, voter, rest) ensures v in RowsOf(poll, voter, choices) {
      var i :| 0 <= i < |rest| && v == Vote(poll, voter, rest[i]);
      assert v == Vote(poll, voter, choices[i + 1]);
    }
  }

  lemma OtherPollsUntouched(t: Tables, t': Tables, poll: nat, voter: string, choices: seq<nat>, q: nat)
    requires t'.votes == t.votes + RowsOf(poll, voter, choices) && q != poll
    ensures VotesIn(t', q) == VotesIn(t, q) && VotersIn(t', q) == VotersIn(t, q)
    ensures OneVoteEach(t, q) ==> OneVoteEach(t', q)
  {
    assert VotesIn(t', q) == VotesIn(t, q);
    forall x | x in VotersIn(t', q) ensures x in VotersIn(t, q) {
      var v :| v in t'.votes && v.poll == q && v.voter == x;
      assert v in t.votes;
    }
    forall x | x in VotersIn(t, q) ensures x in VotersIn(t', q) {
      var v :| v in t.votes && v.poll == q && v.voter == x;
      assert v in t'.votes;
    }
  }

  lemma VoteKeepsInv(t: Tables, poll: nat, voter: string, choices: seq<nat>, now: int)
    requires Inv(t)
    ensures Inv(VoteInPoll(t, poll, voter, choices, now).0)
  {
    if VoteInPoll(t, poll, voter, choices, now).1.Ok? {
      CastKeepsOptions(t, poll, voter, choices);
      CastAddsBallot(t, poll, voter, choices);
      RecountKeepsInv(t, Cast(t, poll, voter, choices).value, poll, voter, choices);
    }
  }

  lemma RecountKeepsInv(t: Tables, cast: Tables, poll: nat, voter: string, choices: seq<nat>)
    requires PollsInv(t) && OptionsInv(cast) && poll in t.polls && cast.polls == t.polls
    requires cast.votes == t.votes + RowsOf(poll, voter, choices)
    requires !t.polls[poll].multiple ==> |choices| == 1 && BallotOf(t, poll, voter) == {}
    ensures Inv(Recount(cast, poll))
  {
    var t' := Recount(cast, poll);
    assert forall o :: VotesFor(t', o) == VotesFor(cast, o);
    forall p | p in t'.polls
      ensures t'.polls[p].votesCount == |VotesIn(t', p)| && t'.polls[p].votersCount == |VotersIn(t', p)|
      ensures !t'.polls[p].multiple ==> OneVoteEach(t', p)
    {
      if p != poll {
        OtherPollsUntouched(t, t', poll, voter, choices, p);
      } else {
        assert VotesIn(t', p) == VotesIn(cast, p) && VotersIn(t', p) == VotersIn(cast, p);
        if !t.polls[p].multiple { SingleChoice(t, t', poll, voter, choices); }
      }
    }
  }

  lemma SingleChoice(t: Tables, t': Tables, poll: nat, voter: string, choices: seq<nat>)
    requires OneVoteEach(t, poll) && BallotOf(t, poll, voter) == {} && |choices| == 1
    requires t'.votes == t.votes + RowsOf(poll, voter, choices)
    ensures OneVoteEach(t', poll)
  {
    assert RowsOf(poll, voter, choices) == {Vote(poll, voter, choices[0])};
    forall v, w | v in t'.votes && w in t'.votes && v.poll == poll && w.poll == poll && v.voter == w.voter ensures v == w {
      assert v.voter == voter && v in t.votes ==> v in BallotOf(t, poll, voter);
      assert w.voter == voter && w in t.votes ==> w in BallotOf(t, poll, voter);
    }
  }

  lemma {:induction false} AddOptionsKeeps(t: Tables, poll: nat, ids: seq<nat>, titles: seq<string>, index: nat)
    requires |ids| == |titles| && poll in t.polls && OptionsInv(t) && AddOptions(t, poll, ids, titles, index).Some?
    ensures var t' := AddOptions(t, poll, ids, titles, index).value;
      OptionsInv(t') && t'.polls == t.polls && t'.votes == t.votes
    decreases |ids|
  {
    if ids != [] {
      var next := t.(options := t.options[ids[0] := PollOption(poll, titles[0], index, 0)]);
      forall o | o in next.options
        ensures next.options[o].poll in next.polls && next.options[o].votesCount == |VotesFor(next, o)|
      {
        if o == ids[0] {
          assert VotesFor(next, o) == {};
        } else {
          assert VotesFor(next, o) == VotesFor(t, o);
        }
      }
      AddOptionsKeeps(next, poll, ids[1..], titles[1..], index + 1);
    }
  }

  lemma CreateKeepsInv(t: Tables, poll: nat, ids: seq<nat>, titles: seq<string>, expiresAt: int, multiple: bool)
    requires Inv(t) && |ids| == |titles|
    ensures Inv(CreatePoll(t, poll, ids, titles, expiresAt, multiple).0)
  {
    if CreatePoll(t, poll, ids, titles, expiresAt, multiple).1.Ok? {
      var begun := t.(polls := t.polls[poll := Poll(Some(expiresAt), false, multiple, 0, 0)]);
      assert forall o :: VotesFor(begun, o) == VotesFor(t, o);
      AddOptionsKeeps(begun, poll, ids, titles, 0);
      var t' := CreatePoll(t, poll, ids, titles, expiresAt, multiple).0;
      forall p | p in t'.polls
        ensures t'.polls[p].votesCount == |VotesIn(t', p)| && t'.polls[p].votersCount == |VotersIn(t', p)|
        ensures !t'.polls[p].multiple ==> OneVoteEach(t', p)
      {
        assert VotesIn(t', p) == VotesIn(t, p) && VotersIn(t', p) == VotersIn(t, p);
        if p == poll { assert VotesIn(t', p) == {} && VotersIn(t', p) == {}; }
      }
    }
  }

  // ---------------------------------------------------------------------------
  // Runs
  // ---------------------------------------------------------------------------

  datatype Op =
    | CreateOp(poll: nat, ids: seq<nat>, titles: seq<string>, expiresAt: int, multiple: bool)
    | VoteOp(poll: nat, voter: string, choices: seq<nat>, now: int)

  function Do(t: Tables, op: Op): (Tables, Result<(), AppError>) {
    match op
    case CreateOp(p, ids, titles, e, m) =>
      if |ids| == |titles| then CreatePoll(t, p, ids, titles, e, m) else (t, Err(Validation))
    case VoteOp(p, voter, choices, now) => VoteInPoll(t, p, voter, choices, now)
  }

  function Run(t: Tables, ops: seq<Op>): Tables
    decreases |ops|
  {
    if ops == [] then t else Run(Do(t, ops[0]).0, ops[1..])
  }

  lemma StepKeepsInv(t: Tables, op: Op)
    requires Inv(t)
    ensures Inv(Do(t, op).0)
  {
    match op
    case CreateOp(p, ids, titles, e, m) =>
      if |ids| == |titles| { CreateKeepsInv(t, p, ids, titles, e, m); }
    case VoteOp(p, voter, choices, now) => VoteKeepsInv(t, p, voter, choices, now);
  }

  lemma {:induction false} RunKeepsInv(t: Tables, ops: seq<Op>)
    requires Inv(t)
    ensures Inv(Run(t, ops))
    decreases |ops|
  {
    if ops != [] {
      StepKeepsInv(t, ops[0]);
      RunKeepsInv(Do(t, ops[0]).0, ops[1..]);
    }
  }

  /** Any error leaves every table as it was. */
  lemma ErrorsChangeNothing(t: Tables, op: Op)
    ensures Do(t, op).1.Err? ==> Do(t, op).0 == t
  {
  }

  ghost function Pick(s: set<nat>): nat
    requires s != {}
  {
    var x :| x in s; x
  }

  ghost function SumOfCounts(t: Tables, options: set<nat>): nat
    requires options <= t.options.Keys
    decreases |options|
  {
    if options == {} then 0
    else var o := Pick(options); t.options[o].votesCount + SumOfCounts(t, options - {o})
  }

  lemma {:induction false} SumCountsRows(t: Tables, options: set<nat>)
    requires OptionsInv(t) && options <= t.options.Keys
    ensures SumOfCounts(t, options) == |set v | v in t.votes && v.option in options|
    decreases |options|
  {
    if options == {} {
      assert (set v | v in t.votes && v.option in options) == {};
    } else {
      var o := Pick(options);
      SumCountsRows(t, options - {o});
      assert (set v | v in t.votes && v.option in options)
          == VotesFor(t, o) + (set v | v in t.votes && v.option in options - {o});
      assert VotesFor(t, o) !! (set v | v in t.votes && v.option in options - {o});
    }
  }

  function OptionsOf(t: Tables, poll: nat): set<nat> {
    set o | o in t.options && t.options[o].poll == poll
  }

  lemma {:induction false} VotersOfSingle(rows: set<Vote>)
    requires forall v, w :: v in rows && w in rows && v.voter == w.voter ==> v == w
    ensures |set v | v in rows :: v.voter| == |rows|
    decreases |rows|
  {
    if rows == {} {
      assert (set v | v in rows :: v.voter) == {};
    } else {
      var x :| x in rows;
      VotersOfSingle(rows - {x});
      assert (set v | v in rows :: v.voter) == (set v | v in rows - {x} :: v.voter) + {x.voter};
    }
  }

  /** After every run each poll's counts agree with its rows: the votes with the rows and with the sum
      over its options, the voters with the distinct voters; in a single-choice poll both are equal. */
  lemma CountsAgree(t: Tables, ops: seq<Op>, poll: nat)
    requires Inv(t) && poll in Run(t, ops).polls
    ensures var u := Run(t, ops);
      && u.polls[poll].votesCount == |VotesIn(u, poll)| == SumOfCounts(u, OptionsOf(u, poll))
      && u.polls[poll].votersCount == |VotersIn(u, poll)|
      && (!u.polls[poll].multiple ==> u.polls[poll].votesCount == u.polls[poll].votersCount)
      && forall o :: o in OptionsOf(u, poll) ==> u.options[o].votesCount == |VotesFor(u, o)|
  {
    RunKeepsInv(t, ops);
    var u := Run(t, ops);
    SumCountsRows(u, OptionsOf(u, poll));
    assert VotesIn(u, poll) == set v | v in u.votes && v.option in OptionsOf(u, poll);
    if !u.polls[poll].multiple {
      VotersOfSingle(VotesIn(u, poll));
      assert VotersIn(u, poll) == set v | v in VotesIn(u, poll) :: v.voter;
    }
  }

  /** A vote at or after the stored expiry, or in a poll marked expired, is refused; so is one in a poll
      whose expiry cannot be read. */
  lemma LateVoteIsRefused(t: Tables, poll: nat, voter: string, choices: seq<nat>, now: int)
    requires poll in t.polls
    requires t.polls[poll].expired || t.polls[poll].expiresAt.None? || now >= t.polls[poll].expiresAt.value
    ensures VoteInPoll(t, poll, voter, choices, now) == (t, Err(Validation))
  {
  }

  /** Before that a voter's first vote for one of the poll's options goes through, and counts. */
  lemma FirstVoteCounts(t: Tables, poll: nat, voter: string, option: nat, now: int)
    requires poll in t.polls && !t.polls[poll].expired
    requires t.polls[poll].expiresAt.Some? && now < t.polls[poll].expiresAt.value
    requires option in t.options && t.options[option].poll == poll
    requires forall v :: v in t.votes ==> v.poll != poll || v.voter != voter
    ensures var (u, r) := VoteInPoll(t, poll, voter, [option], now);
      && r == Ok(()) && u.votes == t.votes + {Vote(poll, voter, option)}
      && option in u.options && u.options[option] == t.options[option].(votesCount := t.options[option].votesCount + 1)
  {
    var v := Vote(poll, voter, option);
    assert BallotOf(t, poll, voter) == {};
    assert v !in t.votes;
    assert [option][1..] == [];
    var cast := CastOne(t, poll, voter, option).value;
    assert Cast(t, poll, voter, [option]) == Cast(cast, poll, voter, []) == Some(cast);
  }

  lemma {:induction false} OptionsAreAdded(t: Tables, poll: nat, ids: seq<nat>, titles: seq<string>, index: nat)
    requires |ids| == |titles| && AddOptions(t, poll, ids, titles, index).Some?
    ensures var u := AddOptions(t, poll, ids, titles, index).value;
      && u.polls == t.polls && u.votes == t.votes
      && (forall o :: o in t.options ==> o in u.options && u.options[o] == t.options[o])
      && (forall i :: 0 <= i < |ids| ==>
            ids[i] !in t.options && ids[i] in u.options && u.options[ids[i]] == PollOption(poll, titles[i], index + i, 0))
      && (forall o :: o in u.options ==> o in t.options || o in ids)
    decreases |ids|
  {
    if ids != [] {
      var next := t.(options := t.options[ids[0] := PollOption(poll, titles[0], index, 0)]);
      OptionsAreAdded(next, poll, ids[1..], titles[1..], index + 1);
      var u := AddOptions(t, poll, ids, titles, index).value;
      forall i | 0 <= i < |ids|
        ensures ids[i] !in t.options && ids[i] in u.options && u.options[ids[i]] == PollOption(poll, titles[i], index + i, 0)
      {
        if i > 0 { assert ids[i] == ids[1..][i - 1] && titles[i] == titles[1..][i - 1]; }
      }
    }
  }

  /** A new poll has its options with their titles in order, no votes, and the expiry it was given. */
  lemma CreatedPollIs(t: Tables, poll: nat, ids: seq<nat>, titles: seq<string>, expiresAt: int, multiple: bool)
    requires |ids| == |titles| && CreatePoll(t, poll, ids, titles, expiresAt, multiple).1.Ok?
    ensures var u := CreatePoll(t, poll, ids, titles, expiresAt, multiple).0;
      && u.polls == t.polls[poll := Poll(Some(expiresAt), false, multiple, 0, 0)] && u.votes == t.votes
      && (forall i :: 0 <= i < |ids| ==> ids[i] in u.options && u.options[ids[i]] == PollOption(poll, titles[i], i, 0))
      && (forall o :: o in u.options ==> o in t.options || o in ids)
  {
    OptionsAreAdded(t.(polls := t.polls[poll := Poll(Some(expiresAt), false, multiple, 0, 0)]), poll, ids, titles, 0);
  }

  /** A vote that succeeds is the voter's whole ballot: there was none before. */
  lemma VoteIsWholeBallot(t: Tables, poll: nat, voter: string, choices: seq<nat>, now: int)
    requires Inv(t) && VoteInPoll(t, poll, voter, choices, now).1.Ok?
    ensures BallotOf(t, poll, voter) == {}
    ensures BallotOf(VoteInPoll(t, poll, voter, choices, now).0, poll, voter) == RowsOf(poll, voter, choices)
    ensures |RowsOf(poll, voter, choices)| == |choices| > 0
  {
    CastAddsBallot(t, poll, voter, choices);
    var t' := VoteInPoll(t, poll, voter, choices, now).0;
    assert t'.votes == t.votes + RowsOf(poll, voter, choices);
    BallotIsRows(t, t', poll, voter, choices);
  }

  lemma BallotIsRows(t: Tables, t': Tables, poll: nat, voter: string, choices: seq<nat>)
    requires BallotOf(t, poll, voter) == {} && t'.votes == t.votes + RowsOf(poll, voter, choices)
    ensures BallotOf(t', poll, voter) == RowsOf(poll, voter, choices)
  {
    forall v | v in t'.votes && v.poll == poll && v.voter == voter ensures v in RowsOf(poll, voter, choices) {
      assert v in t.votes ==> v in BallotOf(t, poll, voter);
    }
  }

  lemma {:induction false} AddOptionsAddsNoVotes(t: Tables, poll: nat, ids: seq<nat>, titles: seq<string>, index: nat)
    requires |ids| == |titles| && AddOptions(t, poll, ids, titles, index).Some?
    ensures AddOptions(t, poll, ids, titles, index).value.votes == t.votes
    decreases |ids|
  {
    if ids != [] {
      AddOptionsAddsNoVotes(t.(options := t.options[ids[0] := PollOption(poll, titles[0], index, 0)]),
                            poll, ids[1..], titles[1..], index + 1);
    }
  }

  lemma VoteLeavesOtherBallots(t: Tables, p: nat, w: string, choices: seq<nat>, now: int, poll: nat, voter: string)
    requires BallotOf(t, poll, voter) != {}
    ensures BallotOf(VoteInPoll(t, p, w, choices, now).0, poll, voter) == BallotOf(t, poll, voter)
  {
    if VoteInPoll(t, p, w, choices, now).1.Ok? { CastAddsBallot(t, p, w, choices); }
  }

  lemma BallotOutlivesStep(t: Tables, op: Op, poll: nat, voter: string)
    requires BallotOf(t, poll, voter) != {}
    ensures BallotOf(Do(t, op).0, poll, voter) == BallotOf(t, poll, voter)
  {
    match op
    case CreateOp(p, ids, titles, e, m) =>
      if Do(t, op).1.Ok? {
        AddOptionsAddsNoVotes(t.(polls := t.polls[p := Poll(Some(e), false, m, 0, 0)]), p, ids, titles, 0);
      }
    case VoteOp(p, w, choices, now) => VoteLeavesOtherBallots(t, p, w, choices, now, poll, voter);
  }

  /** And it stays so: no later operation adds to a ballot or takes from it. */
  lemma {:induction false} BallotIsFinal(t: Tables, ops: seq<Op>, poll: nat, voter: string)
    requires BallotOf(t, poll, voter) != {}
    ensures BallotOf(Run(t, ops), poll, voter) == BallotOf(t, poll, voter)
    decreases |ops|
  {
    if ops != [] {
      BallotOutlivesStep(t, ops[0], poll, voter);
      BallotIsFinal(Do(t, ops[0]).0, ops[1..], poll, voter);
    }
  }
}
