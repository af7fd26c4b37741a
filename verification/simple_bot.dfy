/**
 * The three-node joke pipeline without memory: joke_gen -> critic -> rewriter.
 * Each node returns a partial update holding only its own key, which the
 * graph merges into the running state; empty model replies are replaced by
 * fixed placeholder texts.
 */
module SimpleBot {
  import opened Wrappers
  import opened Text
  import opened ModelClient

  /** The state keys; a field is `None` while its key is absent. */
  datatype JokeState = JokeState(
    topic: Option<string>,
    joke: Option<string>,
    critique: Option<string>,
    rewritten: Option<string>)

  /** A node's return value: the keys it sets. */
  datatype Update = Update(
    topic: Option<string>,
    joke: Option<string>,
    critique: Option<string>,
    rewritten: Option<string>)

  const NoUpdate := Update(None, None, None, None)

  /** The state the command loop passes in: just the topic. */
  function Initial(topic: string): JokeState {
    JokeState(Some(topic), None, None, None)
  }

  /** Returned keys overwrite, every other key keeps its value. */
  function Merge(st: JokeState, u: Update): (r: JokeState)
    ensures u.topic.Some? ==> r.topic == u.topic
    ensures u.topic.None? ==> r.topic == st.topic
    ensures u.joke.Some? ==> r.joke == u.joke
    ensures u.joke.None? ==> r.joke == st.joke
    ensures u.critique.Some? ==> r.critique == u.critique
    ensures u.critique.None? ==> r.critique == st.critique
    ensures u.rewritten.Some? ==> r.rewritten == u.rewritten
    ensures u.rewritten.None? ==> r.rewritten == st.rewritten
  {
    JokeState(
      if u.topic.Some? then u.topic else st.topic,
      if u.joke.Some? then u.joke else st.joke,
      if u.critique.Some? then u.critique else st.critique,
      if u.rewritten.Some? then u.rewritten else st.rewritten)
  }

  /**
   * A node's update sets only its own key, so merging it changes that key
   * and nothing else in the state.
   */
  lemma MergeOwnKey(st: JokeState, value: string)
    ensures Merge(st, NoUpdate.(joke := Some(value))) == st.(joke := Some(value))
    ensures Merge(st, NoUpdate.(critique := Some(value))) == st.(critique := Some(value))
    ensures Merge(st, NoUpdate.(rewritten := Some(value))) == st.(rewritten := Some(value))
  {
  }

  /** A node's update together with the requests it made. */
  datatype NodeOutput = NodeOutput(update: Update, requests: seq<Request>)

  const DefaultTopic := "random stuff"
  const NoJoke := "No joke generated."
  const NothingToCritique := "No joke to critique."
  const NoCritique := "No critique."
  const NothingToRewrite := "No joke to rewrite."
  const NoRewrite := "No rewritten version."

  /** Python's `text or fallback` for strings: an empty text is false. */
  function OrElse(text: string, fallback: string): (r: string)
    requires fallback != ""
    ensures r != ""
    ensures text != "" ==> r == text
    ensures text == "" ==> r == fallback
  {
    if text != "" then text else fallback
  }

  /** generate_joke: asks for a joke about the topic (or "random stuff"). */
  function GenerateJoke(st: JokeState, reply: string): (r: NodeOutput)
    ensures r.update == NoUpdate.(joke := r.update.joke)
    ensures r.update.joke.Some? && r.update.joke.value != ""
    ensures Strip(reply) != "" ==> r.update.joke == Some(Strip(reply))
    ensures Strip(reply) == "" ==> r.update.joke == Some(NoJoke)
    ensures r.requests == [Request(Generate, st.topic.GetOr(DefaultTopic))]
  {
    var topic := st.topic.GetOr(DefaultTopic);
    NodeOutput(NoUpdate.(joke := Some(OrElse(Strip(reply), NoJoke))), [Request(Generate, topic)])
  }

  /** critique_joke: no joke means no request and a placeholder critique. */
  function CritiqueJoke(st: JokeState, reply: string): (r: NodeOutput)
    ensures r.update == NoUpdate.(critique := r.update.critique)
    ensures r.update.critique.Some? && r.update.critique.value != ""
    ensures st.joke.GetOr("") == "" ==>
              r.update.critique == Some(NothingToCritique) && r.requests == []
    ensures st.joke.GetOr("") != "" ==>
              r.requests == [Request(Critique, st.joke.value)]
              && r.update.critique == Some(if Strip(reply) != "" then Strip(reply) else NoCritique)
  {
    var joke := st.joke.GetOr("");
    if joke == "" then
      NodeOutput(NoUpdate.(critique := Some(NothingToCritique)), [])
    else
      NodeOutput(NoUpdate.(critique := Some(OrElse(Strip(reply), NoCritique))),
                 [Request(Critique, joke)])
  }

  /** rewrite_joke: no joke means no request and a placeholder rewrite. */
  function RewriteJoke(st: JokeState, reply: string): (r: NodeOutput)
    ensures r.update == NoUpdate.(rewritten := r.update.rewritten)
    ensures r.update.rewritten.Some? && r.update.rewritten.value != ""
    ensures st.joke.GetOr("") == "" ==>
              r.update.rewritten == Some(NothingToRewrite) && r.requests == []
    ensures st.joke.GetOr("") != "" ==>
              r.requests == [Request(Rewrite, st.joke.value)]
              && r.update.rewritten == Some(if Strip(reply) != "" then Strip(reply) else NoRewrite)
  {
    var joke := st.joke.GetOr("");
    if joke == "" then
      NodeOutput(NoUpdate.(rewritten := Some(NothingToRewrite)), [])
    else
      NodeOutput(NoUpdate.(rewritten := Some(OrElse(Strip(reply), NoRewrite))),
                 [Request(Rewrite, joke)])
  }

  // ---------------------------------------------------------------------
  // The graph: nodes, edges, entry point.
  // ---------------------------------------------------------------------

  datatype Node = JokeGen | Critic | Rewriter

  const Entry := JokeGen

  /** The successor edge of each node; `None` is the terminal marker. */
  function Next(n: Node): Option<Node> {
    match n
    case JokeGen => Some(Critic)
    case Critic => Some(Rewriter)
    case Rewriter => None
  }

  /** Number of nodes from `n` to the terminal marker; each edge lowers it. */
  function Distance(n: Node): nat {
    match n
    case JokeGen => 3
    case Critic => 2
    case Rewriter => 1
  }

  /** The model's replies for one run, one per node. */
  datatype Replies = Replies(joke: string, critique: string, rewrite: string)

  /** Runs one node and merges its update into the state. */
  function Apply(n: Node, st: JokeState, replies: Replies): NodeOutput {
    match n
    case JokeGen => GenerateJoke(st, replies.joke)
    case Critic => CritiqueJoke(st, replies.critique)
    case Rewriter => RewriteJoke(st, replies.rewrite)
  }

  /**
   * State and request log after following the edges from `n` to the end.
   * No node touches the topic, only joke_gen sets the joke, each node adds
   * at most one request, and the walk always ends in the rewriter.
   */
  function RunFrom(n: Node, st: JokeState, log: seq<Request>, replies: Replies): (r: (JokeState, seq<Request>))
    ensures r.0.topic == st.topic
    ensures n != JokeGen ==> r.0.joke == st.joke
    ensures n == JokeGen ==> r.0.joke == Some(OrElse(Strip(replies.joke), NoJoke))
    ensures r.0.rewritten.Some? && r.0.rewritten.value != ""
    ensures |log| <= |r.1| <= |log| + Distance(n) && r.1[..|log|] == log
    decreases Distance(n)
  {
    var out := Apply(n, st, replies);
    var st' := Merge(st, out.update);
    match Next(n)
    case None => (st', log + out.requests)
    case Some(m) => RunFrom(m, st', log + out.requests, replies)
  }

  /** `compiled.invoke(state)` with the model's replies. */
  function Invoke(st: JokeState, replies: Replies): (r: (JokeState, seq<Request>))
    ensures r.0.topic == st.topic
    ensures r.0.joke == Some(OrElse(Strip(replies.joke), NoJoke))
    ensures r.0.rewritten.Some? && r.0.rewritten.value != ""
    ensures |r.1| <= 3
  {
    RunFrom(Entry, st, [], replies)
  }

  /** The three nodes applied one after the other, written out by hand. */
  function Sequential(st: JokeState, replies: Replies): (JokeState, seq<Request>) {
    var gen := GenerateJoke(st, replies.joke);
    var s1 := Merge(st, gen.update);
    var critic := CritiqueJoke(s1, replies.critique);
    var s2 := Merge(s1, critic.update);
    var rewriter := RewriteJoke(s2, replies.rewrite);
    (Merge(s2, rewriter.update), gen.requests + critic.requests + rewriter.requests)
  }

  /** Running the graph is applying its nodes in their chain order. */
  lemma InvokeIsSequential(st: JokeState, replies: Replies)
    ensures Invoke(st, replies) == Sequential(st, replies)
  {
    var o1 := GenerateJoke(st, replies.joke);
    var s1 := Merge(st, o1.update);
    var o2 := CritiqueJoke(s1, replies.critique);
    var s2 := Merge(s1, o2.update);
    var o3 := RewriteJoke(s2, replies.rewrite);
    var s3 := Merge(s2, o3.update);
    assert RunFrom(Rewriter, s2, o1.requests + o2.requests, replies)
        == (s3, o1.requests + o2.requests + o3.requests);
    assert RunFrom(Critic, s1, o1.requests, replies) == (s3, o1.requests + o2.requests + o3.requests);
    assert [] + o1.requests == o1.requests;
  }

  /**
   * Whatever the initial state, a run sets a non-empty joke, critique and
   * rewrite, keeps the topic, and makes exactly three requests: the
   * generator never leaves the joke empty, so the critic and the rewriter
   * never take their no-joke short cut.
   */
  lemma InvokeOutcome(st: JokeState, replies: Replies)
    ensures var (final, requests) := Invoke(st, replies);
      var joke := OrElse(Strip(replies.joke), NoJoke);
      && final.topic == st.topic
      && final.joke == Some(joke)
      && final.critique == Some(OrElse(Strip(replies.critique), NoCritique))
      && final.rewritten == Some(OrElse(Strip(replies.rewrite), NoRewrite))
      && requests == [Request(Generate, st.topic.GetOr(DefaultTopic)),
                      Request(Critique, joke),
                      Request(Rewrite, joke)]
  {
    var o1 := GenerateJoke(st, replies.joke);
    var s1 := Merge(st, o1.update);
    var o2 := CritiqueJoke(s1, replies.critique);
    var s2 := Merge(s1, o2.update);
    var o3 := RewriteJoke(s2, replies.rewrite);
    var s3 := Merge(s2, o3.update);
    assert RunFrom(Rewriter, s2, o1.requests + o2.requests, replies)
        == (s3, o1.requests + o2.requests + o3.requests);
    assert RunFrom(Critic, s1, o1.requests, replies) == (s3, o1.requests + o2.requests + o3.requests);
    assert [] + o1.requests == o1.requests;
  }
}
