/** The page and the service together: a whole play-through, a submission and the ranked listing. */
module Scenario {
  import opened Api
  import opened Ranking
  import opened Server
  import opened Client

  /** What the page's question request sees for a service answer: a 404 throws, so it is a failure. */
  function Transport(r: QuestionsResponse, reachable: bool): Fetch {
    if reachable && r.Found? then Received(r.questions) else Failed
  }

  /** A reachable service hands the page a non-empty list for each tier and a failure for any other key. */
  lemma TransportOfLookup(d: string)
    ensures Transport(GetQuestions(d), true).Received? <==> d in Tiers
    ensures d in Tiers ==> Transport(GetQuestions(d), true).questions != []
  {
  }

  /** Whether pick `p` is the correct option of question q. */
  predicate Hit(q: Question, p: nat) {
    p < |q.options| && q.options[p] == q.answer
  }

  /** How many of the picks hit the correct option of their question. */
  function CorrectCount(qs: seq<Question>, picks: seq<nat>): (n: nat)
    requires |picks| == |qs|
    ensures n <= |qs|
  {
    if qs == [] then 0
    else CorrectCount(qs[..|qs| - 1], picks[..|qs| - 1]) + (if Hit(qs[|qs| - 1], picks[|qs| - 1]) then 1 else 0)
  }

  /** Full marks exactly when every pick is correct. */
  lemma {:induction false} FullMarksIffAllCorrect(qs: seq<Question>, picks: seq<nat>)
    requires |picks| == |qs|
    ensures CorrectCount(qs, picks) == |qs| <==> forall i :: 0 <= i < |qs| ==> Hit(qs[i], picks[i])
  {
    if qs != [] {
      var n := |qs| - 1;
      FullMarksIffAllCorrect(qs[..n], picks[..n]);
      if forall i :: 0 <= i < |qs| ==> Hit(qs[i], picks[i]) {
        assert forall i :: 0 <= i < n ==> Hit(qs[..n][i], picks[..n][i]) by {
          forall i | 0 <= i < n ensures Hit(qs[..n][i], picks[..n][i]) {
            assert qs[..n][i] == qs[i] && picks[..n][i] == picks[i];
          }
        }
      }
      if CorrectCount(qs, picks) == |qs| {
        forall i | 0 <= i < |qs| ensures Hit(qs[i], picks[i]) {
          if i < n {
            assert qs[..n][i] == qs[i] && picks[..n][i] == picks[i];
          }
        }
      }
    }
  }

  /** Plays a started quiz to the end, clicking `picks[i]` on question i and then Next each time. */
  method PlayThrough(s: Session, picks: seq<nat>) returns (submission: Submission)
    requires s.Valid() && s.screen == Quiz && s.index == 0 && s.score == 0 && !s.answered
    requires |picks| == |s.questions|
    requires forall i :: 0 <= i < |picks| ==> picks[i] < |s.questions[i].options|
    modifies s
    ensures s.Valid() && s.screen == Result
    ensures s.questions == old(s.questions) && s.username == old(s.username) && s.difficulty == old(s.difficulty)
    ensures s.index == |s.questions| && s.score == CorrectCount(s.questions, picks)
    ensures submission == Submission(Present(s.username), Present(s.score), Present(|s.questions|), Present(s.difficulty))
  {
    ghost var qs := s.questions;
    var last: Option<Submission> := None;
    while s.screen == Quiz
      invariant s.Valid() && (s.screen == Quiz || s.screen == Result)
      invariant s.questions == qs && s.username == old(s.username) && s.difficulty == old(s.difficulty)
      invariant s.index <= |qs|
      invariant s.screen == Quiz ==> !s.answered
      invariant s.score == CorrectCount(qs[..s.index], picks[..s.index])
      invariant s.screen == Result ==>
        s.index == |qs| &&
        last == Some(Submission(Present(s.username), Present(s.score), Present(|qs|), Present(s.difficulty)))
      decreases |qs| - s.index
    {
      var i := s.index;
      s.SelectAnswer(picks[i]);
      assert qs[..i + 1][..i] == qs[..i] && picks[..i + 1][..i] == picks[..i];
      last := s.NextQuestion();
    }
    assert qs[..|qs|] == qs && picks[..|qs|] == picks;
    submission := last.value;
  }

  /** A player "eve" answers every "medium" question correctly; the page shows 3 / 3 and the
      leaderboard then lists her entry with the four submitted values. */
  method EveScenario() returns (score: nat, total: nat, board: LeaderboardResponse)
    ensures score == 3 && total == 3
    ensures board == Scores([Entry("eve", 3, 3, "medium")])
  {
    var submission;
    submission, score, total := EveQuiz();
    var store := new Store();
    var posted := store.PostScore(submission, true);
    board := store.GetLeaderboard(true, [Entry("eve", 3, 3, "medium")]);
    assert Rank([Entry("eve", 3, 3, "medium")]) == [Entry("eve", 3, 3, "medium")];
  }

  /** The page side of the scenario: the submission sent after the last question. */
  method EveQuiz() returns (submission: Submission, score: nat, total: nat)
    ensures score == 3 && total == 3
    ensures submission == Submission(Present("eve"), Present(3), Present(3), Present("medium"))
  {
    var s := new Session();
    var medium := Bank["medium"];
    var fetch := Transport(GetQuestions("medium"), true);
    assert fetch == Received(medium);
    assert Trim("eve") == "eve" by {
      assert TrimStart("eve") == "eve";
    }
    var started := s.StartQuiz("eve", "medium", fetch);
    var picks := [2, 0, 2];
    assert forall i :: 0 <= i < 3 ==> Hit(medium[i], picks[i]);
    submission := PlayThrough(s, picks);
    FullMarksIffAllCorrect(medium, picks);
    score, total := s.score, |s.questions|;
  }

  /** A body without a username is refused and stores nothing; "dave" with 3 of 5 is stored and listed. */
  method DaveScenario() returns (refused: SubmitResponse, accepted: SubmitResponse, board: LeaderboardResponse)
    ensures refused == MissingData && accepted == Created
    ensures board == Scores([Entry("dave", 3, 5, "easy")])
  {
    var store := new Store();
    refused := store.PostScore(Submission(Field.Missing, Present(3), Present(5), Present("easy")), true);
    accepted := store.PostScore(Submission(Present("dave"), Present(3), Present(5), Present("easy")), true);
    board := store.GetLeaderboard(true, [Entry("dave", 3, 5, "easy")]);
  }

  /** Higher score first, and alice before carol on a tie. */
  lemma RankingExample()
    ensures Rank([Entry("alice", 5, 10, "easy"), Entry("bob", 8, 10, "easy"), Entry("carol", 5, 10, "easy")])
         == [Entry("bob", 8, 10, "easy"), Entry("alice", 5, 10, "easy"), Entry("carol", 5, 10, "easy")]
  {
    var alice, bob, carol := Entry("alice", 5, 10, "easy"), Entry("bob", 8, 10, "easy"), Entry("carol", 5, 10, "easy");
    assert [alice, bob, carol][..2] == [alice, bob];
    assert [alice, bob][..1] == [alice];
    assert [alice][..0] == [];
    assert Rank([alice]) == [alice];
    assert Compare(alice, bob) > 0;
    assert Insert([alice], bob) == Insert([], bob) + [alice];
    assert Rank([alice, bob]) == Insert([alice], bob);
    assert LexCompare("alice", "carol") < 0;
    assert Compare(alice, carol) < 0;
  }
}
