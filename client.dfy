/** The quiz page: one play-through as a state machine over screens, index, score and answer lock. */
module Client {
  import opened Api
  import Server

  /** The four screens of the page; exactly one is active. */
  datatype Screen = Start | Quiz | Result | Leaderboard

  /** What the question request yields: a failure (network error, non-OK status, unreadable body) or a list. */
  datatype Fetch = Failed | Received(questions: seq<Question>)

  /** How `startQuiz` ended, standing for the inline error or the alert it shows. */
  datatype StartOutcome = UsernameMissing | Started | NoQuestions | ConnectionError

  /** The look of one option button: not yet answered, revealed correct, faded, or faded and marked as the wrong pick. */
  datatype Mark = Pending | Correct | Faded | Incorrect

  /** The inline message shown when no username was typed. */
  const UsernameMessage: string := "Please enter a username!"

  /** The characters `String.prototype.trim` removes: ECMAScript white space and line terminators. */
  predicate IsSpace(c: char) {
    c == '\t' || c == '\n' || c == '\U{0B}' || c == '\U{0C}' || c == '\r' || c == ' ' ||
    c == '\U{A0}' || c == '\U{1680}' || ('\U{2000}' <= c <= '\U{200A}') ||
    c == '\U{2028}' || c == '\U{2029}' || c == '\U{202F}' || c == '\U{205F}' ||
    c == '\U{3000}' || c == '\U{FEFF}'
  }

  /** Drops leading white space: the result is a suffix of s that starts with a non-space. */
  function TrimStart(s: string): (r: string)
    ensures |r| <= |s| && r == s[|s| - |r|..]
    ensures forall k :: 0 <= k < |s| - |r| ==> IsSpace(s[k])
    ensures r != [] ==> !IsSpace(r[0])
  {
    if s != [] && IsSpace(s[0]) then TrimStart(s[1..]) else s
  }

  /** Drops trailing white space: the result is a prefix of s that ends with a non-space. */
  function TrimEnd(s: string): (r: string)
    ensures |r| <= |s| && r == s[..|r|]
    ensures forall k :: |r| <= k < |s| ==> IsSpace(s[k])
    ensures r != [] ==> !IsSpace(r[|r| - 1])
  {
    if s != [] && IsSpace(s[|s| - 1]) then TrimEnd(s[..|s| - 1]) else s
  }

  /** `String.prototype.trim`: strips white space from both ends of s. */
  function Trim(s: string): (r: string)
    ensures |r| <= |s|
    ensures r != [] ==> !IsSpace(r[0]) && !IsSpace(r[|r| - 1])
    decreases |s|
  {
    if s != [] && IsSpace(s[0]) then Trim(s[1..])
    else if s != [] && IsSpace(s[|s| - 1]) then Trim(s[..|s| - 1])
    else s
  }

  /** Trimming both ends at once is the same as dropping leading, then trailing, white space. */
  lemma {:induction false} TrimIsEndOfStart(s: string)
    ensures Trim(s) == TrimEnd(TrimStart(s))
    decreases |s|
  {
    if s != [] && IsSpace(s[0]) {
      TrimIsEndOfStart(s[1..]);
    } else if s != [] && IsSpace(s[|s| - 1]) {
      var p := s[..|s| - 1];
      TrimIsEndOfStart(p);
      assert TrimStart(s) == s;
      assert TrimEnd(s) == TrimEnd(p);
      assert p != [] ==> p[0] == s[0];
      assert TrimStart(p) == p;
    } else {
      assert TrimStart(s) == s;
    }
  }

  /** A typed name trims to nothing exactly when every character of it is white space. */
  lemma TrimEmptyIffBlank(s: string)
    ensures Trim(s) == [] <==> forall k :: 0 <= k < |s| ==> IsSpace(s[k])
  {
    TrimIsEndOfStart(s);
    var t := TrimStart(s);
    if Trim(s) == [] {
      assert t == [];
    }
    if forall k :: 0 <= k < |s| ==> IsSpace(s[k]) {
      BlankTrimsToNothing(s);
    }
  }

  lemma {:induction false} BlankTrimsToNothing(s: string)
    requires forall k :: 0 <= k < |s| ==> IsSpace(s[k])
    ensures TrimStart(s) == []
  {
    if s != [] {
      assert IsSpace(s[0]);
      BlankTrimsToNothing(s[1..]);
    }
  }

  /** Trimming a trimmed name changes nothing. */
  lemma TrimIdempotent(s: string)
    ensures Trim(Trim(s)) == Trim(s)
  {
    var r := Trim(s);
    if r != [] {
      assert !IsSpace(r[0]) && !IsSpace(r[|r| - 1]);
    }
  }

  /** The module-level state of the page script. */
  class Session {
    var screen: Screen
    var username: string
    var difficulty: string
    var questions: seq<Question>
    var index: nat
    var score: nat
    /** Whether the option buttons of the question on display are disabled. */
    var answered: bool
    /** The look of each option button of the question on display. */
    var marks: seq<Mark>
    /** The inline error under the username box. */
    var usernameError: string
    /** The text of the username box: what was typed in at the last start, or what the start screen wrote back. */
    var inputValue: string

    /** The session invariant: scoring never runs ahead of the questions answered, and each screen's counters fit. */
    ghost predicate Valid()
      reads this
    {
      score <= index + (if answered then 1 else 0) &&
      (screen == Quiz ==> index < |questions| && |marks| == |questions[index].options| && username != "") &&
      (screen == Result ==> 0 < index == |questions| && score <= index && username != "")
    }

    /** The state once the page has loaded. */
    constructor ()
      ensures Valid()
      ensures screen == Start && username == "" && difficulty == "easy" && questions == []
      ensures index == 0 && score == 0 && !answered && marks == []
      ensures usernameError == "" && inputValue == ""
    {
      screen, username, difficulty, questions := Start, "", "easy", [];
      index, score, answered, marks := 0, 0, false, [];
      usernameError, inputValue := "", "";
    }

    /** Renders the current question: one enabled, unmarked button per option. */
    method ShowQuestion()
      requires index < |questions|
      modifies this`answered, this`marks
      ensures !answered
      ensures |marks| == |questions[index].options| && forall k :: 0 <= k < |marks| ==> marks[k] == Pending
    {
      var options := questions[index].options;
      var buttons: seq<Mark> := [];
      var k := 0;
      while k < |options|
        invariant 0 <= k <= |options|
        invariant |buttons| == k && forall m :: 0 <= m < k ==> buttons[m] == Pending
      {
        buttons := buttons + [Pending];
        k := k + 1;
      }
      marks := buttons;
      answered := false;
    }

    /** `startQuiz(difficulty)` with the typed name and the outcome of the question request as inputs. */
    method StartQuiz(input: string, level: string, fetch: Fetch) returns (outcome: StartOutcome)
      requires Valid() && screen == Start
      modifies this
      ensures Valid()
      ensures username == Trim(input) && inputValue == input
      ensures username == "" ==>
        outcome == UsernameMissing && usernameError == UsernameMessage &&
        difficulty == old(difficulty) && questions == old(questions)
      ensures username != "" ==> usernameError == "" && difficulty == level
      ensures username != "" && fetch.Failed? ==> outcome == ConnectionError && questions == old(questions)
      ensures username != "" && fetch.Received? && fetch.questions == [] ==> outcome == NoQuestions && questions == []
      ensures outcome != Started ==>
        screen == Start && index == old(index) && score == old(score) &&
        answered == old(answered) && marks == old(marks)
      ensures outcome == Started <==> username != "" && fetch.Received? && fetch.questions != []
      ensures outcome == Started ==>
        questions == fetch.questions && screen == Quiz && index == 0 && score == 0 && !answered &&
        |marks| == |questions[0].options| && forall k :: 0 <= k < |marks| ==> marks[k] == Pending
    {
      inputValue := input;
      username := Trim(input);
      if username == "" {
        usernameError := UsernameMessage;
        outcome := UsernameMissing;
      } else {
        usernameError := "";
        outcome := Begin(level, fetch);
      }
    }

    /** What `startQuiz` does once the name is accepted: records the tier, then takes the question list. */
    method Begin(level: string, fetch: Fetch) returns (outcome: StartOutcome)
      requires Valid() && screen == Start && username != ""
      modifies this`difficulty, this`questions, this`index, this`score, this`screen, this`answered, this`marks
      ensures Valid() && difficulty == level
      ensures fetch.Failed? ==> outcome == ConnectionError && questions == old(questions)
      ensures fetch.Received? && fetch.questions == [] ==> outcome == NoQuestions && questions == []
      ensures outcome == Started <==> fetch.Received? && fetch.questions != []
      ensures outcome != Started ==>
        screen == Start && index == old(index) && score == old(score) &&
        answered == old(answered) && marks == old(marks)
      ensures outcome == Started ==>
        questions == fetch.questions && screen == Quiz && index == 0 && score == 0 && !answered &&
        |marks| == |questions[0].options| && forall k :: 0 <= k < |marks| ==> marks[k] == Pending
    {
      difficulty := level;
      if fetch.Failed? {
        return ConnectionError;
      }
      questions := fetch.questions;
      if |questions| == 0 {
        return NoQuestions;
      }
      index, score, screen := 0, 0, Quiz;
      ShowQuestion();
      outcome := Started;
    }

    /** A click on option button `choice` of the question on display; clicks on disabled buttons do nothing. */
    method SelectAnswer(choice: nat)
      requires Valid() && screen == Quiz && choice < |marks|
      modifies this`score, this`answered, this`marks
      ensures Valid() && answered
      ensures score <= index + 1 <= |questions|
      ensures old(answered) ==> score == old(score) && marks == old(marks)
      ensures !old(answered) ==>
        var q := questions[index];
        score == old(score) + (if q.options[choice] == q.answer then 1 else 0) &&
        |marks| == |q.options| &&
        (forall k :: 0 <= k < |marks| ==> (marks[k] == Correct <==> q.options[k] == q.answer)) &&
        (forall k :: 0 <= k < |marks| ==> (marks[k] == Incorrect <==> k == choice && q.options[k] != q.answer)) &&
        (forall k :: 0 <= k < |marks| ==> marks[k] != Pending)
    {
      if answered {
        return;
      }
      var q := questions[index];
      var selected := q.options[choice];
      var buttons: seq<Mark> := [];
      var k := 0;
      while k < |q.options|
        invariant 0 <= k <= |q.options| && |buttons| == k
        invariant forall m :: 0 <= m < k ==> (buttons[m] == Correct <==> q.options[m] == q.answer)
        invariant forall m :: 0 <= m < k ==> (buttons[m] == Correct || buttons[m] == Faded)
      {
        buttons := buttons + [if q.options[k] == q.answer then Correct else Faded];
        k := k + 1;
      }
      answered := true;
      if selected == q.answer {
        score := score + 1;
      } else {
        buttons := buttons[choice := Incorrect];
      }
      marks := buttons;
    }

    /** Switches to the result screen and hands back the one submission it sends. */
    method ShowResult() returns (payload: Submission)
      requires 0 < index == |questions| && score <= index && username != ""
      modifies this`screen
      ensures screen == Result && Valid()
      ensures payload == Submission(Present(username), Present(score), Present(|questions|), Present(difficulty))
      ensures Server.Accepts(payload) <==> difficulty != ""
    {
      screen := Result;
      payload := Submission(Present(username), Present(score), Present(|questions|), Present(difficulty));
    }

    /** The Next button, shown only once the question on display is answered. */
    method NextQuestion() returns (submission: Option<Submission>)
      requires Valid() && screen == Quiz && answered
      modifies this`index, this`screen, this`answered, this`marks
      ensures Valid()
      ensures index == old(index) + 1 && score == old(score)
      ensures index < |questions| ==>
        screen == Quiz && submission == None && !answered &&
        |marks| == |questions[index].options| && forall k :: 0 <= k < |marks| ==> marks[k] == Pending
      ensures index >= |questions| ==>
        index == |questions| && screen == Result && score <= |questions| &&
        answered == old(answered) && marks == old(marks) &&
        submission == Some(Submission(Present(username), Present(score), Present(|questions|), Present(difficulty)))
      ensures submission.Some? ==> (Server.Accepts(submission.value) <==> difficulty != "")
    {
      index := index + 1;
      if index < |questions| {
        ShowQuestion();
        submission := None;
      } else {
        var payload := ShowResult();
        submission := Some(payload);
      }
    }

    /** `showLeaderboard`: only its screen change; the list it draws is the service's answer. */
    method ShowLeaderboard()
      requires Valid()
      modifies this`screen
      ensures Valid() && screen == Leaderboard
    {
      screen := Leaderboard;
    }

    /** `showStartScreen`: back to the start screen with the last name typed into the box. */
    method ShowStartScreen()
      requires Valid()
      modifies this`screen, this`inputValue
      ensures Valid() && screen == Start && inputValue == username
    {
      screen := Start;
      inputValue := username;
    }

    /** `restartQuiz`: the same as showing the start screen; the counters are reset only by the next start. */
    method RestartQuiz()
      requires Valid()
      modifies this`screen, this`inputValue
      ensures Valid() && screen == Start && inputValue == username
    {
      ShowStartScreen();
    }
  }
}
