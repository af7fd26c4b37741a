/**
 * The four-node joke pipeline with a process-wide memory of jokes:
 * tell_joke -> critic -> rewriter -> memory.
 * Every node receives the whole state and returns it, updated; the memory
 * store is threaded through explicitly instead of being a global list.
 */
module MemoryBot {
  import opened Wrappers
  import opened Text
  import opened Score
  import opened ModelClient

  /** The pipeline state; a field is `None` while its key is absent. */
  datatype State = State(
    topic: Option<string>,
    previousJokes: Option<seq<string>>,
    joke: Option<string>,
    critique: Option<string>,
    humorScore: Option<int>,
    rewritten: Option<string>,
    memory: Option<seq<string>>)

  /** The state the command loop passes in: just the topic. */
  function Initial(topic: string): State {
    State(Some(topic), None, None, None, None, None, None)
  }

  /** The only error a node raises: a required key is missing (`KeyError`). */
  datatype Error = MissingKey(key: string)

  /** State, memory store and requests made so far. */
  datatype Step = Step(state: State, store: seq<string>, requests: seq<Request>)

  /** What a node that leaves the store alone produces. */
  datatype Outcome = Outcome(state: State, requests: seq<Request>)

  /** Marker text around a joke the model repeated. */
  const RepeatPrefix := "(\U{26A0}\U{FE0F} Reused joke avoided) Here's a new twist:\n"
  const RepeatSuffix := " (again!)"

  /** Whether a text has the shape of a repeat notice. */
  predicate IsNotice(x: string) {
    && |x| >= |RepeatPrefix| + |RepeatSuffix|
    && x[..|RepeatPrefix|] == RepeatPrefix
    && x[|x| - |RepeatSuffix|..] == RepeatSuffix
  }

  /** The notice that replaces a repeated joke; the joke sits between the markers. */
  function RepeatNotice(joke: string): (r: string)
    ensures IsNotice(r)
    ensures r[|RepeatPrefix|..|r| - |RepeatSuffix|] == joke
  {
    var r := RepeatPrefix + joke + RepeatSuffix;
    assert r[..|RepeatPrefix|] == RepeatPrefix;
    assert r[|r| - |RepeatSuffix|..] == RepeatSuffix;
    assert r[|RepeatPrefix|..|r| - |RepeatSuffix|] == joke;
    r
  }

  /** Fixed rewriter output for jokes scored 7 or more. */
  const AlreadyGood := "(\U{2705} Already family-friendly and funny enough!)"

  /** Scores at or above this skip the rewrite. */
  const GoodEnough := 7

  predicate NoDuplicates(s: seq<string>) {
    forall i, j :: 0 <= i < j < |s| ==> s[i] != s[j]
  }

  /**
   * tell_joke: requires a topic, remembers the store as `previousJokes` when
   * that key is absent, asks for a joke, and either records the trimmed
   * reply or, if it is already stored, wraps it in the repeat notice.
   */
  function TellJoke(st: State, store: seq<string>, reply: string): (r: Result<Step, Error>)
    ensures r.Failure? <==> st.topic.None?
    ensures r.Failure? ==> r.error == MissingKey("topic")
    ensures r.Success? ==> r.value.requests == [Request(Generate, st.topic.value)]
    // a repeat leaves the store alone and is flagged
    ensures r.Success? && Strip(reply) in store ==>
              r.value.store == store && r.value.state.joke == Some(RepeatNotice(Strip(reply)))
    // a new joke is appended and passed on as it is
    ensures r.Success? && Strip(reply) !in store ==>
              r.value.store == store + [Strip(reply)] && r.value.state.joke == Some(Strip(reply))
    // the store only grows, by at most one, and stays free of duplicates
    ensures r.Success? ==> |store| <= |r.value.store| <= |store| + 1
                           && r.value.store[..|store|] == store
                           && Strip(reply) in r.value.store
                           && (NoDuplicates(store) ==> NoDuplicates(r.value.store))
    // previousJokes is filled in only when absent
    ensures r.Success? && st.previousJokes.Some? ==> r.value.state.previousJokes == st.previousJokes
    ensures r.Success? && st.previousJokes.None? ==> r.value.state.previousJokes == Some(store)
    ensures r.Success? ==> r.value.state.(previousJokes := st.previousJokes, joke := st.joke) == st
  {
    match st.topic
    case None => Failure(MissingKey("topic"))
    case Some(topic) =>
      var st1 := if st.previousJokes.None? then st.(previousJokes := Some(store)) else st;
      var joke := Strip(reply);
      var requests := [Request(Generate, topic)];
      if joke in store then
        Success(Step(st1.(joke := Some(RepeatNotice(joke))), store, requests))
      else
        assert (store + [joke])[..|store|] == store;
        Success(Step(st1.(joke := Some(joke)), store + [joke], requests))
  }

  /**
   * critic_node: asks for a rating of the joke (empty if absent), keeps the
   * trimmed reply as the critique and the first one- or two-digit number in
   * it as the score.
   */
  function CriticNode(st: State, reply: string): (r: Outcome)
    ensures r.requests == [Request(Critique, st.joke.GetOr(""))]
    ensures r.state.critique == Some(Strip(reply))
    ensures r.state.humorScore.Some? && 0 <= r.state.humorScore.value <= 99
    ensures (forall i, n :: !MatchesAt(Strip(reply), i, n)) ==> r.state.humorScore == Some(DefaultScore)
    ensures forall i, n :: IsFirstMatch(Strip(reply), i, n) ==>
              r.state.humorScore == Some(RunValue(Strip(reply), i, n))
    ensures r.state.(critique := st.critique, humorScore := st.humorScore) == st
  {
    var content := Strip(reply);
    Outcome(st.(critique := Some(content), humorScore := Some(HumorScore(content))),
            [Request(Critique, st.joke.GetOr(""))])
  }

  /** The score the rewriter acts on: the stored one, or 5. */
  function ScoreOrDefault(st: State): int {
    st.humorScore.GetOr(DefaultScore)
  }

  /**
   * rewriter_node: a joke scored 7 or more gets the fixed "already good"
   * text without asking the model; any other joke is rewritten by the model.
   */
  function RewriterNode(st: State, reply: string): (r: Outcome)
    ensures ScoreOrDefault(st) >= GoodEnough ==>
              r.state.rewritten == Some(AlreadyGood) && r.requests == []
    ensures ScoreOrDefault(st) < GoodEnough ==>
              r.state.rewritten == Some(Strip(reply))
              && r.requests == [Request(Rewrite, st.joke.GetOr(""))]
    ensures st.humorScore.None? ==> |r.requests| == 1
    ensures r.state.(rewritten := st.rewritten) == st
  {
    if ScoreOrDefault(st) >= GoodEnough then
      Outcome(st.(rewritten := Some(AlreadyGood)), [])
    else
      Outcome(st.(rewritten := Some(Strip(reply))), [Request(Rewrite, st.joke.GetOr(""))])
  }

  /** A rewriter that does not ask the model cannot depend on its reply. */
  lemma RewriterSkipsModel(st: State, reply1: string, reply2: string)
    requires ScoreOrDefault(st) >= GoodEnough
    ensures RewriterNode(st, reply1) == RewriterNode(st, reply2)
  {
  }

  /** memory_node: publishes a snapshot of the store as `memory`. */
  function MemoryNode(st: State, store: seq<string>): (r: State)
    ensures r.memory == Some(store)
    ensures r.(memory := st.memory) == st
  {
    st.(memory := Some(store))
  }

  /** Recording the memory twice without a new joke gives the same state. */
  lemma MemoryNodeIdempotent(st: State, store: seq<string>)
    ensures MemoryNode(MemoryNode(st, store), store) == MemoryNode(st, store)
  {
  }

  // ---------------------------------------------------------------------
  // The graph: nodes, edges, entry point.
  // ---------------------------------------------------------------------

  datatype Node = TellJokeStep | CriticStep | RewriterStep | MemoryStep

  const Entry := TellJokeStep

  /** The successor edge of each node; `None` is the terminal marker. */
  function Next(n: Node): Option<Node> {
    match n
    case TellJokeStep => Some(CriticStep)
    case CriticStep => Some(RewriterStep)
    case RewriterStep => Some(MemoryStep)
    case MemoryStep => None
  }

  /** Number of nodes from `n` to the terminal marker; each edge lowers it. */
  function Distance(n: Node): nat {
    match n
    case TellJokeStep => 4
    case CriticStep => 3
    case RewriterStep => 2
    case MemoryStep => 1
  }

  /** The model's replies for one run, one per node that may ask. */
  datatype Replies = Replies(joke: string, critique: string, rewrite: string)

  /** Runs one node on the current step, appending its requests to the log. */
  function Apply(n: Node, s: Step, replies: Replies): (r: Result<Step, Error>)
    ensures r.Failure? <==> n == TellJokeStep && s.state.topic.None?
    ensures r.Success? ==> r.value.state.topic == s.state.topic
    ensures r.Success? && n == MemoryStep ==> r.value.state.memory == Some(r.value.store)
    ensures r.Success? ==> |s.requests| <= |r.value.requests| <= |s.requests| + 1
                           && r.value.requests[..|s.requests|] == s.requests
    ensures r.Success? && n != TellJokeStep ==> r.value.store == s.store
    ensures r.Success? && n == TellJokeStep ==>
              var joke := Strip(replies.joke);
              r.value.store == (if joke in s.store then s.store else s.store + [joke])
  {
    match n
    case TellJokeStep =>
      (match TellJoke(s.state, s.store, replies.joke)
       case Failure(e) => Failure(e)
       case Success(t) => Success(Step(t.state, t.store, s.requests + t.requests)))
    case CriticStep =>
      var o := CriticNode(s.state, replies.critique);
      Success(Step(o.state, s.store, s.requests + o.requests))
    case RewriterStep =>
      var o := RewriterNode(s.state, replies.rewrite);
      Success(Step(o.state, s.store, s.requests + o.requests))
    case MemoryStep =>
      Success(Step(MemoryNode(s.state, s.store), s.store, s.requests))
  }

  /**
   * Follows the edges from `n` to the terminal marker; an error stops the run.
   * Only tell_joke can fail or change the store, each node adds at most one
   * request, and the walk always ends in the memory node.
   */
  function RunFrom(n: Node, s: Step, replies: Replies): (r: Result<Step, Error>)
    ensures r.Failure? <==> n == TellJokeStep && s.state.topic.None?
    ensures r.Success? ==> r.value.state.topic == s.state.topic
    ensures r.Success? ==> r.value.state.memory == Some(r.value.store)
    ensures r.Success? ==> |s.requests| <= |r.value.requests| <= |s.requests| + Distance(n)
                           && r.value.requests[..|s.requests|] == s.requests
    ensures r.Success? && n != TellJokeStep ==> r.value.store == s.store
    ensures r.Success? && n == TellJokeStep ==>
              var joke := Strip(replies.joke);
              r.value.store == (if joke in s.store then s.store else s.store + [joke])
    decreases Distance(n)
  {
    match Apply(n, s, replies)
    case Failure(e) => Failure(e)
    case Success(s') =>
      match Next(n)
      case None => Success(s')
      case Some(m) => RunFrom(m, s', replies)
  }

  /** `app.invoke(state)`, with the store before the run and the model's replies. */
  function Invoke(st: State, store: seq<string>, replies: Replies): (r: Result<Step, Error>)
    ensures r.Failure? <==> st.topic.None?
    ensures r.Success? ==> r.value.state.topic == st.topic
    ensures r.Success? ==> r.value.state.memory == Some(r.value.store)
    ensures r.Success? ==>
              var joke := Strip(replies.joke);
              r.value.store == (if joke in store then store else store + [joke])
  {
    RunFrom(Entry, Step(st, store, []), replies)
  }

  /** The four nodes applied one after the other, written out by hand. */
  function Sequential(st: State, store: seq<string>, replies: Replies): Result<Step, Error> {
    match TellJoke(st, store, replies.joke)
    case Failure(e) => Failure(e)
    case Success(t) =>
      var critic := CriticNode(t.state, replies.critique);
      var rewriter := RewriterNode(critic.state, replies.rewrite);
      Success(Step(MemoryNode(rewriter.state, t.store), t.store,
                   t.requests + critic.requests + rewriter.requests))
  }

  /** Running the graph is applying its nodes in their chain order. */
  lemma InvokeIsSequential(st: State, store: seq<string>, replies: Replies)
    ensures Invoke(st, store, replies) == Sequential(st, store, replies)
  {
    var s0 := Step(st, store, []);
    match TellJoke(st, store, replies.joke)
    case Failure(e) =>
      assert Apply(TellJokeStep, s0, replies).Failure?;
    case Success(t) =>
      var s1 := Step(t.state, t.store, t.requests);
      assert [] + t.requests == t.requests;
      assert Apply(TellJokeStep, s0, replies) == Success(s1);
      var o2 := CriticNode(s1.state, replies.critique);
      var s2 := Step(o2.state, s1.store, s1.requests + o2.requests);
      assert Apply(CriticStep, s1, replies) == Success(s2);
      var o3 := RewriterNode(s2.state, replies.rewrite);
      var s3 := Step(o3.state, s2.store, s2.requests + o3.requests);
      assert Apply(RewriterStep, s2, replies) == Success(s3);
      var s4 := Step(MemoryNode(s3.state, s3.store), s3.store, s3.requests);
      assert RunFrom(MemoryStep, s3, replies) == Success(s4);
      assert RunFrom(RewriterStep, s2, replies) == Success(s4);
      assert RunFrom(CriticStep, s1, replies) == Success(s4);
  }

  /**
   * What a run produces, node by node: the joke (flagged if repeated), the
   * critique and its score, the rewrite or the fixed text, and the store's
   * final contents as `memory`; two requests when the score is 7 or more,
   * three otherwise.
   */
  lemma InvokeOutcome(st: State, store: seq<string>, replies: Replies)
    ensures Invoke(st, store, replies).Failure? <==> st.topic.None?
    ensures Invoke(st, store, replies).Success? ==>
      var out := Invoke(st, store, replies).value;
      var joke := Strip(replies.joke);
      var critique := Strip(replies.critique);
      var score := HumorScore(critique);
      && out.state.topic == st.topic
      && out.state.joke == Some(if joke in store then RepeatNotice(joke) else joke)
      && out.state.critique == Some(critique)
      && out.state.humorScore == Some(score)
      && out.state.rewritten == Some(if score >= GoodEnough then AlreadyGood else Strip(replies.rewrite))
      && out.state.memory == Some(out.store)
      && out.store == (if joke in store then store else store + [joke])
      && |out.requests| == (if score >= GoodEnough then 2 else 3)
      && out.requests[0] == Request(Generate, st.topic.value)
      && out.requests[1] == Request(Critique, out.state.joke.value)
      && (score < GoodEnough ==> out.requests[2] == Request(Rewrite, out.state.joke.value))
  {
    InvokeIsSequential(st, store, replies);
    var r := TellJoke(st, store, replies.joke);
    if r.Success? {
      var t := r.value;
      var critic := CriticNode(t.state, replies.critique);
      assert critic.state.humorScore == Some(HumorScore(Strip(replies.critique)));
      var rewriter := RewriterNode(critic.state, replies.rewrite);
      assert ScoreOrDefault(critic.state) == HumorScore(Strip(replies.critique));
    }
  }

  // ---------------------------------------------------------------------
  // The store across a session of runs.
  // ---------------------------------------------------------------------

  /** One iteration of the command loop: a topic and the model's replies. */
  datatype Round = Round(topic: string, replies: Replies)

  /** The store after running the pipeline once per round, in order. */
  function Session(store: seq<string>, rounds: seq<Round>): (s': seq<string>)
    ensures |store| <= |s'| <= |store| + |rounds|
    ensures s'[..|store|] == store
    decreases |rounds|
  {
    if rounds == [] then store
    else Session(RoundStore(store, rounds[0]), rounds[1..])
  }

  /** The trimmed joke replies of a session, in order. */
  function JokeReplies(rounds: seq<Round>): (r: seq<string>)
    ensures |r| == |rounds|
    ensures forall k :: 0 <= k < |rounds| ==> r[k] == Strip(rounds[k].replies.joke)
  {
    if rounds == [] then []
    else
      var rest := JokeReplies(rounds[1..]);
      assert forall k :: 1 <= k < |rounds| ==> rest[k - 1] == Strip(rounds[k].replies.joke);
      [Strip(rounds[0].replies.joke)] + rest
  }

  /** The store after one run of the command loop. */
  function RoundStore(store: seq<string>, r: Round): (s': seq<string>)
    ensures Strip(r.replies.joke) in store ==> s' == store
    ensures Strip(r.replies.joke) !in store ==> s' == store + [Strip(r.replies.joke)]
  {
    match Invoke(Initial(r.topic), store, r.replies)
    case Failure(_) => store  // unreachable: an initial state always has a topic
    case Success(out) => out.store
  }

  /**
   * One run adds its trimmed joke reply to the store unless it is already
   * there, keeping the old contents as a prefix and leaving no duplicates.
   */
  lemma RoundStoreAppends(store: seq<string>, r: Round)
    requires NoDuplicates(store)
    ensures var s' := RoundStore(store, r);
      && NoDuplicates(s')
      && |store| <= |s'| <= |store| + 1
      && s'[..|store|] == store
      && forall x :: x in s' <==> x in store || x == Strip(r.replies.joke)
  {
    var joke := Strip(r.replies.joke);
    if joke in store {
      assert RoundStore(store, r) == store;
      assert store[..|store|] == store;
    } else {
      var s' := store + [joke];
      assert RoundStore(store, r) == s';
      forall i, j | 0 <= i < j < |s'| ensures s'[i] != s'[j] {
        if j == |store| { assert s'[i] == store[i]; }
      }
      assert s'[..|store|] == store;
    }
  }

  /**
   * Across any number of runs the store is append-only, grows by at most
   * one joke per run, never holds a duplicate, and holds exactly the jokes
   * it started with plus the trimmed joke replies.
   */
  lemma {:induction false} SessionStore(store: seq<string>, rounds: seq<Round>)
    requires NoDuplicates(store)
    ensures var final := Session(store, rounds);
      && NoDuplicates(final)
      && |store| <= |final| <= |store| + |rounds|
      && final[..|store|] == store
      && forall x :: x in final <==> x in store || x in JokeReplies(rounds)
    decreases |rounds|
  {
    if rounds != [] {
      var s1 := RoundStore(store, rounds[0]);
      RoundStoreAppends(store, rounds[0]);
      SessionStore(s1, rounds[1..]);
      var final := Session(s1, rounds[1..]);
      assert final == Session(store, rounds);
      assert final[..|store|] == store by {
        assert final[..|store|] == final[..|s1|][..|store|];
      }
      var rest := JokeReplies(rounds[1..]);
      assert JokeReplies(rounds) == [Strip(rounds[0].replies.joke)] + rest;
      forall x ensures x in final <==> x in store || x in JokeReplies(rounds) {
        assert x in final <==> x in s1 || x in rest;
      }
    }
  }

  /** Starting from an empty store, a session's store is exactly its distinct jokes. */
  lemma SessionFromEmpty(rounds: seq<Round>)
    ensures var final := Session([], rounds);
      && NoDuplicates(final)
      && |final| <= |rounds|
      && forall x :: x in final <==> x in JokeReplies(rounds)
  {
    SessionStore([], rounds);
  }

  /**
   * The notice a repeat produces never enters the store: a session's store
   * holds a notice-shaped text only if it started with one or the model
   * itself replied with one.
   */
  lemma SessionStoresNoNotice(store: seq<string>, rounds: seq<Round>)
    requires NoDuplicates(store)
    requires forall x :: x in store ==> !IsNotice(x)
    requires forall k :: 0 <= k < |rounds| ==> !IsNotice(Strip(rounds[k].replies.joke))
    ensures forall x :: x in Session(store, rounds) ==> !IsNotice(x)
    ensures forall joke :: RepeatNotice(joke) !in Session(store, rounds)
  {
    SessionStore(store, rounds);
    forall x | x in Session(store, rounds) ensures !IsNotice(x) {
      if x !in store {
        var k :| 0 <= k < |rounds| && JokeReplies(rounds)[k] == x;
      }
    }
  }
}
