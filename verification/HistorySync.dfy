/** Scheduling the download of missing conversation events
    (Source/Synchronization/IncompleteConversationsDownstreamSync.swift).

    The two lists of incomplete conversations, their gaps, the history switch, the clock and whether the
    weakly held encoder and parser are alive are inputs of each step. Times are seconds.
 */
module HistorySync {
  import opened Options

  type Conversation = int
  type Gap = int

  /** Conversation `c` is not excluded, and every one before it is. */
  ghost predicate IsFirst(list: seq<Conversation>, excluded: set<Conversation>, c: Conversation) {
    exists i :: 0 <= i < |list| && list[i] == c && c !in excluded && forall k :: 0 <= k < i ==> list[k] in excluded
  }

  lemma FirstOfRest(list: seq<Conversation>, excluded: set<Conversation>, r: Option<Conversation>)
    requires list != [] && list[0] in excluded
    requires r.Some? ==> IsFirst(list[1..], excluded, r.value)
    ensures r.Some? ==> IsFirst(list, excluded, r.value)
  {
    if r.Some? {
      var rest := list[1..];
      var i :| 0 <= i < |rest| && rest[i] == r.value && forall k :: 0 <= k < i ==> rest[k] in excluded;
      assert list[i + 1] == r.value;
      assert forall k :: 0 < k < i + 1 ==> list[k] == rest[k - 1];
    }
  }

  /** The first conversation of a list that is not in the set, if there is any. */
  function FirstNotIn(list: seq<Conversation>, excluded: set<Conversation>): (r: Option<Conversation>)
    ensures r.Some? ==> IsFirst(list, excluded, r.value)
    ensures r.None? ==> forall c :: c in list ==> c in excluded
  {
    if list == [] then None
    else if list[0] !in excluded then Some(list[0])
    else
      var r := FirstNotIn(list[1..], excluded);
      FirstOfRest(list, excluded, r);
      r
  }

  lemma FirstIsUnique(list: seq<Conversation>, excluded: set<Conversation>)
    ensures forall c, d :: IsFirst(list, excluded, c) && IsFirst(list, excluded, d) ==> c == d
  {
    forall c, d | IsFirst(list, excluded, c) && IsFirst(list, excluded, d) ensures c == d {
      var i :| 0 <= i < |list| && list[i] == c && c !in excluded && forall k :: 0 <= k < i ==> list[k] in excluded;
      var j :| 0 <= j < |list| && list[j] == d && d !in excluded && forall k :: 0 <= k < j ==> list[k] in excluded;
      assert !(i < j) && !(j < i);
    }
  }

  /** The candidate of a list; a first conversation without a gap hides those behind it. */
  function Candidate(list: seq<Conversation>, fetching: set<Conversation>, gaps: map<Conversation, Gap>)
    : (r: Option<(Conversation, Gap)>)
    ensures r.Some? ==> IsFirst(list, fetching, r.value.0) && r.value.0 in gaps && r.value.1 == gaps[r.value.0]
    ensures r.None? ==> forall c :: IsFirst(list, fetching, c) ==> c !in gaps
  {
    FirstIsUnique(list, fetching);
    var first := FirstNotIn(list, fetching);
    if first.Some? && first.value in gaps then Some((first.value, gaps[first.value])) else None
  }

  /** What the caches and the clock say when a request is asked for: `now` when the cooldown is looked at,
      `reset` when it is started again. */
  datatype Moment = Moment(
    whitelisted: seq<Conversation>,
    nonWhitelisted: seq<Conversation>,
    gaps: map<Conversation, Gap>,
    shouldDownloadFullHistory: bool,
    encoder: bool,
    now: real,
    reset: real)

  class IncompleteConversationsDownstreamSync {
    const cooldown: real
    var conversationsBeingFetched: set<Conversation>
    var lastLowPriorityDownloadDate: real

    constructor (cooldown: real)
      ensures this.cooldown == cooldown && conversationsBeingFetched == {} && lastLowPriorityDownloadDate == 0.0
    {
      this.cooldown := cooldown;
      conversationsBeingFetched, lastLowPriorityDownloadDate := {}, 0.0;
    }

    method NextConversationWithGap(m: Moment) returns (r: Option<(Conversation, Gap)>)
      modifies this`lastLowPriorityDownloadDate
      ensures r == Choice(conversationsBeingFetched, old(lastLowPriorityDownloadDate), cooldown, m)
      ensures lastLowPriorityDownloadDate
                == LowDate(conversationsBeingFetched, old(lastLowPriorityDownloadDate), cooldown, m)
      ensures lastLowPriorityDownloadDate
                == if r.Some? && Candidate(m.whitelisted, conversationsBeingFetched, m.gaps).None? then m.reset
                   else old(lastLowPriorityDownloadDate)
    {
      var high := Candidate(m.whitelisted, conversationsBeingFetched, m.gaps);
      if high.Some? {
        return high;
      }
      if m.shouldDownloadFullHistory && m.now - lastLowPriorityDownloadDate > cooldown {
        var low := Candidate(m.nonWhitelisted, conversationsBeingFetched, m.gaps);
        if low.Some? {
          lastLowPriorityDownloadDate := m.reset;
          return low;
        }
      }
      return None;
    }

    method NextRequest(m: Moment) returns (request: Option<(Conversation, Gap)>)
      modifies this
      ensures request == if !m.encoder then None
                         else Choice(old(conversationsBeingFetched), old(lastLowPriorityDownloadDate), cooldown, m)
      ensures conversationsBeingFetched == old(conversationsBeingFetched)
                + if request.Some? then {request.value.0} else {}
      ensures lastLowPriorityDownloadDate
                == LowDate(old(conversationsBeingFetched), old(lastLowPriorityDownloadDate), cooldown, m)
    {
      request := NextConversationWithGap(m);
      if request.None? || !m.encoder {
        return None;
      }
      conversationsBeingFetched := conversationsBeingFetched + {request.value.0};
    }

    /** The completion handler; returns whether the response was parsed. */
    method Complete(conversation: Conversation, tryAgainLater: bool, parser: bool) returns (parsed: bool)
      modifies this`conversationsBeingFetched
      ensures parsed <==> parser && !tryAgainLater
      ensures conversationsBeingFetched == old(conversationsBeingFetched) - if parser then {conversation} else {}
    {
      if !parser {
        return false;
      }
      parsed := !tryAgainLater;
      conversationsBeingFetched := conversationsBeingFetched - {conversation};
    }
  }

  predicate LowTurn(fetching: set<Conversation>, last: real, cooldown: real, m: Moment) {
    && Candidate(m.whitelisted, fetching, m.gaps).None?
    && m.shouldDownloadFullHistory && m.now - last > cooldown
    && Candidate(m.nonWhitelisted, fetching, m.gaps).Some?
  }

  /** High priority first; low priority only when its turn has come. */
  function Choice(fetching: set<Conversation>, last: real, cooldown: real, m: Moment): (r: Option<(Conversation, Gap)>)
    ensures r.Some? ==> r.value.0 !in fetching && r.value.0 in m.gaps && r.value.1 == m.gaps[r.value.0]
    ensures Candidate(m.whitelisted, fetching, m.gaps).Some? ==> r == Candidate(m.whitelisted, fetching, m.gaps)
    ensures Candidate(m.whitelisted, fetching, m.gaps).None? ==>
              r == if m.shouldDownloadFullHistory && m.now - last > cooldown
                   then Candidate(m.nonWhitelisted, fetching, m.gaps) else None
  {
    if LowTurn(fetching, last, cooldown, m) then Candidate(m.nonWhitelisted, fetching, m.gaps)
    else Candidate(m.whitelisted, fetching, m.gaps)
  }

  function LowDate(fetching: set<Conversation>, last: real, cooldown: real, m: Moment): real {
    if LowTurn(fetching, last, cooldown, m) then m.reset else last
  }

  /** The cooldown restarts exactly when a conversation is chosen from the list that is not whitelisted. */
  lemma CooldownRestartsIff(fetching: set<Conversation>, last: real, cooldown: real, m: Moment)
    ensures LowDate(fetching, last, cooldown, m)
            == if && Choice(fetching, last, cooldown, m).Some?
                  && !exists c :: IsFirst(m.whitelisted, fetching, c) && c in m.gaps
               then m.reset else last
  {
  }

  // ----- Whole runs

  /** The object's fields, the conversations of the requests in flight, and the times of the low priority
      requests made so far. */
  datatype State = State(fetching: set<Conversation>, lastLow: real, clock: real, inFlight: seq<Conversation>,
                         lowTimes: seq<real>)

  datatype Step = Ask(moment: Moment) | Finish(k: nat, tryAgainLater: bool, parser: bool)

  predicate Timely(s: State, step: Step) {
    step.Ask? ==> s.clock <= step.moment.now <= step.moment.reset
  }

  function Next(s: State, cooldown: real, step: Step): State {
    match step
    case Ask(m) =>
      var choice := Choice(s.fetching, s.lastLow, cooldown, m);
      var low := LowTurn(s.fetching, s.lastLow, cooldown, m);
      var s' := s.(lastLow := LowDate(s.fetching, s.lastLow, cooldown, m), clock := m.reset);
      if m.encoder && choice.Some? then
        s'.(fetching := s.fetching + {choice.value.0}, inFlight := s.inFlight + [choice.value.0],
            lowTimes := if low then s.lowTimes + [m.reset] else s.lowTimes)
      else s'
    case Finish(k, _, parser) =>
      if k >= |s.inFlight| then s
      else s.(fetching := s.fetching - (if parser then {s.inFlight[k]} else {}),
              inFlight := s.inFlight[..k] + s.inFlight[k + 1..])
  }

  /** A run from a fresh object; the clock may start anywhere after the epoch. */
  function Run(start: real, cooldown: real, steps: seq<Step>): State {
    if steps == [] then State({}, 0.0, start, [], [])
    else Next(Run(start, cooldown, steps[..|steps| - 1]), cooldown, steps[|steps| - 1])
  }

  predicate TimelyRun(start: real, cooldown: real, steps: seq<Step>) {
    steps == [] || (&& TimelyRun(start, cooldown, steps[..|steps| - 1])
                    && Timely(Run(start, cooldown, steps[..|steps| - 1]), steps[|steps| - 1]))
  }

  predicate LiveParser(steps: seq<Step>) {
    forall i :: 0 <= i < |steps| && steps[i].Finish? ==> steps[i].parser
  }

  /** The set being fetched is that of the requests in flight, none of them twice. */
  ghost predicate Tracked(s: State) {
    && (forall c :: c in s.fetching <==> c in s.inFlight)
    && (forall i, j :: 0 <= i < j < |s.inFlight| ==> s.inFlight[i] != s.inFlight[j])
  }

  lemma AskKeepsTracked(s: State, cooldown: real, m: Moment)
    requires Tracked(s)
    ensures Tracked(Next(s, cooldown, Ask(m)))
  {
  }

  /** A completion keeps the bookkeeping exactly when the parser is alive: otherwise the conversation
      stays marked as being fetched for good. */
  lemma {:induction false} FinishNeedsParser(s: State, cooldown: real, k: nat, tryAgainLater: bool, parser: bool)
    requires Tracked(s) && k < |s.inFlight|
    ensures Tracked(Next(s, cooldown, Finish(k, tryAgainLater, parser))) <==> parser
  {
    var s' := Next(s, cooldown, Finish(k, tryAgainLater, parser));
    assert forall i :: 0 <= i < |s'.inFlight| ==> s'.inFlight[i] == s.inFlight[if i < k then i else i + 1];
    assert s.inFlight[k] in s.inFlight && s.inFlight[k] !in s'.inFlight;
    forall c | c in s'.inFlight ensures c in s.fetching {
      var i :| 0 <= i < |s'.inFlight| && s'.inFlight[i] == c;
      assert s.inFlight[if i < k then i else i + 1] == c;
    }
    if parser {
      forall c | c in s'.fetching ensures c in s'.inFlight {
        var i :| 0 <= i < |s.inFlight| && s.inFlight[i] == c;
        assert s'.inFlight[if i < k then i else i - 1] == c;
      }
    } else {
      var c := s.inFlight[k];
      assert c in s'.fetching && c !in s'.inFlight;
    }
  }

  /** With a live parser no run ever has two requests for a conversation in flight, whichever list the
      conversation is on, and the bookkeeping is exact. */
  lemma {:induction false} RunKeepsTracked(start: real, cooldown: real, steps: seq<Step>)
    requires LiveParser(steps)
    ensures Tracked(Run(start, cooldown, steps))
    decreases steps
  {
    if steps != [] {
      var n := |steps| - 1;
      RunKeepsTracked(start, cooldown, steps[..n]);
      var s := Run(start, cooldown, steps[..n]);
      match steps[n] {
        case Ask(m) => AskKeepsTracked(s, cooldown, m);
        case Finish(k, tryAgainLater, parser) =>
          if k < |s.inFlight| { FinishNeedsParser(s, cooldown, k, tryAgainLater, parser); }
      }
    }
  }

  /** Low priority requests are more than a cooldown apart, and none is later than the last reset. */
  ghost predicate Spaced(s: State, cooldown: real) {
    && (forall i :: 0 < i < |s.lowTimes| ==> s.lowTimes[i] - s.lowTimes[i - 1] > cooldown)
    && (s.lowTimes != [] ==> s.lowTimes[|s.lowTimes| - 1] <= s.lastLow <= s.clock)
  }

  lemma {:induction false} RunKeepsSpaced(start: real, cooldown: real, steps: seq<Step>)
    requires TimelyRun(start, cooldown, steps)
    ensures Spaced(Run(start, cooldown, steps), cooldown)
    decreases steps
  {
    if steps != [] { RunKeepsSpaced(start, cooldown, steps[..|steps| - 1]); }
  }

  lemma {:induction false} SpanOfSpaced(s: State, cooldown: real, i: nat, j: nat)
    requires Spaced(s, cooldown) && i < j < |s.lowTimes|
    ensures s.lowTimes[j] - s.lowTimes[i] > (j - i) as real * cooldown
  {
    if i + 1 < j {
      SpanOfSpaced(s, cooldown, i, j - 1);
      assert (j - i) as real * cooldown == (j - 1 - i) as real * cooldown + cooldown;
    }
  }

  /** In every run with a clock that does not go back, low priority requests number `i` and `j` are more than
      `j - i` cooldowns apart. */
  lemma {:induction false} LowPrioritySpan(start: real, cooldown: real, steps: seq<Step>, i: nat, j: nat)
    requires TimelyRun(start, cooldown, steps) && i < j < |Run(start, cooldown, steps).lowTimes|
    ensures var times := Run(start, cooldown, steps).lowTimes; times[j] - times[i] > (j - i) as real * cooldown
  {
    RunKeepsSpaced(start, cooldown, steps);
    SpanOfSpaced(Run(start, cooldown, steps), cooldown, i, j);
  }
}
