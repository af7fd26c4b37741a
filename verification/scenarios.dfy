/** Worked examples: the score scanner on sample critiques and the memory pipeline on sample replies. */
module Scenarios {
  import opened Wrappers
  import opened Text
  import opened Score
  import opened ModelClient
  import opened MemoryBot

  /** No run of two digits or less starts before position `k`. */
  lemma NoMatchBelow(s: string, k: int)
    requires 0 <= k <= |s|
    requires forall j :: 0 <= j < k ==> !IsDigit(s[j])
    ensures forall j, m :: j < k ==> !MatchesAt(s, j, m)
  {
  }

  /** A prefix without digits holds no match, whatever follows it. */
  lemma NoMatchInPrefix(prefix: string, rest: string)
    requires forall j :: 0 <= j < |prefix| ==> !IsDigit(prefix[j])
    ensures forall j, m :: j < |prefix| ==> !MatchesAt(prefix + rest, j, m)
  {
    var s := prefix + rest;
    forall j | 0 <= j < |prefix| ensures !IsDigit(s[j]) {
      assert s[j] == prefix[j];
    }
    NoMatchBelow(s, |prefix|);
  }

  /** The score is read from the first standalone number. */
  lemma ScoreOfSentence()
    ensures HumorScore("I'd give this an 8 out of 10 for cleverness") == 8
  {
    var prefix, rest := "I'd give this an ", "8 out of 10 for cleverness";
    var s := prefix + rest;
    assert s == "I'd give this an 8 out of 10 for cleverness";
    assert s[16] == ' ' && s[17] == '8' && s[18] == ' ';
    assert MatchesAt(s, 17, 1);
    assert s[17..18] == "8";
    NoMatchInPrefix(prefix, rest);
    assert IsFirstMatch(s, 17, 1);
  }

  /** A score written as "3/10" reads as 3. */
  lemma ScoreOfFraction()
    ensures HumorScore("3/10, too short.") == 3
  {
    assert IsFirstMatch("3/10, too short.", 0, 1);
  }

  /** Scores are not clamped to the 0..10 scale the prompt asks for. */
  lemma ScoreNotClamped()
    ensures HumorScore("Solid 42.") == 42
  {
    var s := "Solid 42.";
    assert s[6..8] == "42";
    assert MatchesAt(s, 6, 2);
    NoMatchBelow(s, 6);
    assert IsFirstMatch(s, 6, 2);
  }

  /** Text without digits scores the default 5. */
  lemma ScoreWithoutDigits()
    ensures HumorScore("Meh.") == DefaultScore
  {
    NoMatchBelow("Meh.", 4);
  }

  /** Three digits, or digits glued to a letter, are not a score. */
  lemma ScoreRejectsLongAndGluedRuns()
    ensures HumorScore("100") == DefaultScore
    ensures HumorScore("a8") == DefaultScore
  {
    var s := "100";
    forall j, m ensures !MatchesAt(s, j, m) {
      if MatchesAt(s, j, m) {
        assert WordAt(s, j + m);
        assert false;
      }
    }
    var t := "a8";
    forall j, m ensures !MatchesAt(t, j, m) {
      if MatchesAt(t, j, m) {
        assert false;
      }
    }
  }

  const Chicken := "Why did the chicken cross the road?"

  /** A joke the store already holds is flagged and not stored twice. */
  lemma RepeatedJokeIsFlagged(topic: string)
    ensures var r := TellJoke(Initial(topic), [Chicken], Chicken + "\n");
      && r.Success?
      && r.value.store == [Chicken]
      && r.value.state.joke == Some(RepeatNotice(Chicken))
  {
    StripPadded([], Chicken, "\n");
    assert [] + Chicken + "\n" == Chicken + "\n";
  }

  /** The "cats" run: a low score sends the joke to the rewriter. */
  lemma CatsScenario()
    ensures var r := Invoke(Initial("cats"), [], Replies("Cats are liquid.", "3/10, too short.", "Cats: 100% liquid."));
      && r.Success?
      && r.value.store == ["Cats are liquid."]
      && r.value.state.joke == Some("Cats are liquid.")
      && r.value.state.humorScore == Some(3)
      && r.value.state.rewritten == Some("Cats: 100% liquid.")
      && r.value.state.memory == Some(["Cats are liquid."])
      && |r.value.requests| == 3
  {
    var replies := Replies("Cats are liquid.", "3/10, too short.", "Cats: 100% liquid.");
    StripPadded([], replies.joke, []);
    StripPadded([], replies.critique, []);
    StripPadded([], replies.rewrite, []);
    assert [] + replies.joke + [] == replies.joke;
    assert [] + replies.critique + [] == replies.critique;
    assert [] + replies.rewrite + [] == replies.rewrite;
    ScoreOfFraction();
    InvokeOutcome(Initial("cats"), [], replies);
  }
}
