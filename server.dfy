/** The quiz and leaderboard service: a fixed question bank, score submission and the ranked listing. */
module Server {
  import opened Api
  import opened Ranking

  /** The three difficulty tiers the bank is keyed by. */
  const Tiers: set<string> := {"easy", "medium", "hard"}

  /** The static question bank, tier by tier. */
  const Bank: map<string, seq<Question>> := map[
    "easy" := [
      Question("What does 'HTML' stand for?",
        ["Hyper Text Markup Language", "High Tech Modern Language",
         "Hyperlink and Text Markup Language", "Home Tool Markup Language"],
        "Hyper Text Markup Language"),
      Question("Which tag is used to create a hyperlink?",
        ["<link>", "<a>", "<href>", "<p>"],
        "<a>"),
      Question("What is the correct CSS syntax for changing the color of a paragraph?",
        ["p {color: red;}", "p.color = 'red';", "<p style='color:red;'>", "paragraph-color: red;"],
        "p {color: red;}")
    ],
    "medium" := [
      Question("Which of these is a JavaScript framework?",
        ["Laravel", "Django", "React", "Sass"],
        "React"),
      Question("What does `JSON.parse()` do?",
        ["Converts a JSON string into a JavaScript object", "Converts a JavaScript object into a JSON string",
         "Creates a new JSON file", "Parses a CSS file"],
        "Converts a JSON string into a JavaScript object"),
      Question("Which git command is used to create a new branch?",
        ["git branch new-branch", "git create branch new-branch",
         "git checkout -b new-branch", "git new branch"],
        "git checkout -b new-branch")
    ],
    "hard" := [
      Question("What is a 'closure' in JavaScript?",
        ["A function having access to the parent scope, even after the parent function has closed",
         "A way to close a memory leak", "A type of CSS class", "A method to shut down the server"],
        "A function having access to the parent scope, even after the parent function has closed"),
      Question("What is the time complexity of a binary search algorithm?",
        ["O(n)", "O(log n)", "O(n^2)", "O(1)"],
        "O(log n)"),
      Question("In object-oriented programming, what is polymorphism?",
        ["The ability of an object to take on many forms", "A way to hide implementation details",
         "The process of creating a new class from an existing class", "A single name for a set of functions"],
        "The ability of an object to take on many forms")
    ]
  ]

  /** A question is well formed when it has at least two distinct options and its answer is one of them. */
  predicate WellFormed(q: Question) {
    |q.options| >= 2 &&
    (forall i, j :: 0 <= i < j < |q.options| ==> q.options[i] != q.options[j]) &&
    q.answer in q.options
  }

  /** Answer of `GET /api/questions/:difficulty`. */
  datatype QuestionsResponse = Found(questions: seq<Question>) | DifficultyNotFound

  /** Looks a tier up in the bank. */
  function GetQuestions(difficulty: string): (r: QuestionsResponse)
    ensures r.Found? <==> difficulty in Tiers
    ensures r.Found? ==> |r.questions| == 3 && forall q :: q in r.questions ==> WellFormed(q)
  {
    BankTiers();
    BankWellFormed();
    if difficulty in Bank then Found(Bank[difficulty]) else DifficultyNotFound
  }

  /** The bank holds exactly the three tiers. */
  lemma BankTiers()
    ensures Bank.Keys == Tiers
  {
  }

  /** Every tier holds three well-formed questions. */
  lemma BankWellFormed()
    ensures forall d :: d in Bank ==> |Bank[d]| == 3 && forall q :: q in Bank[d] ==> WellFormed(q)
  {
    forall d | d in Bank ensures |Bank[d]| == 3 && forall q :: q in Bank[d] ==> WellFormed(q) {
      var qs := Bank[d];
      forall k | 0 <= k < |qs| ensures WellFormed(qs[k]) {
        assert d == "easy" || d == "medium" || d == "hard";
      }
    }
  }

  /** True when the service accepts a submitted body: username, total and difficulty truthy, score defined. */
  predicate Accepts(s: Submission) {
    TruthyString(s.username) && s.score.Present? && TruthyNumber(s.total) && TruthyString(s.difficulty)
  }

  /** The record stored for an accepted body: the four submitted values, unchanged. */
  function EntryOf(s: Submission): (e: Entry)
    requires Accepts(s)
    ensures Submission(Present(e.username), Present(e.score), Present(e.total), Present(e.difficulty)) == s
  {
    Entry(s.username.value, s.score.value, s.total.value, s.difficulty.value)
  }

  /** A score of zero is accepted and so is a score above the total; a total of zero is refused. */
  lemma ValidationEdgeCases(u: string, d: string, score: int, total: int)
    requires u != "" && d != ""
    ensures Accepts(Submission(Present(u), Present(0), Present(total), Present(d))) <==> total != 0
    ensures total != 0 && score > total ==> Accepts(Submission(Present(u), Present(score), Present(total), Present(d)))
    ensures !Accepts(Submission(Present(u), Missing, Present(total), Present(d)))
    ensures !Accepts(Submission(Present(""), Present(score), Present(total), Present(d)))
  {
  }

  /** Answer of `POST /api/leaderboard`. */
  datatype SubmitResponse = Created | MissingData | SaveError

  /** Answer of `GET /api/leaderboard`. */
  datatype LeaderboardResponse = Scores(entries: seq<Entry>) | FetchError

  /** One insertion step: moves `a[i]` left past every entry that ranks strictly after it. */
  method InsertLast(a: array<Entry>, i: nat)
    requires i < a.Length
    modifies a
    ensures a[..i + 1] == Insert(old(a[..i]), old(a[i]))
    ensures a[i + 1..] == old(a[i + 1..])
  {
    ghost var p := a[..i];
    var x := a[i];
    var j := i;
    while j > 0 && Compare(a[j - 1], x) > 0
      invariant 0 <= j <= i
      invariant forall k :: 0 <= k < j ==> a[k] == p[k]
      invariant forall k :: j < k <= i ==> a[k] == p[k - 1]
      invariant forall k :: i < k < a.Length ==> a[k] == old(a[k])
      invariant forall k :: j <= k < i ==> Compare(p[k], x) > 0
    {
      a[j] := a[j - 1];
      j := j - 1;
    }
    a[j] := x;
    InsertAt(p, j, x);
    Shifted(a[..], old(a[..]), p, i, j, x);
  }

  /** The array after the shifting loop, read back as a sequence. */
  lemma Shifted(d: seq<Entry>, before: seq<Entry>, p: seq<Entry>, i: nat, j: nat, x: Entry)
    requires j <= i < |d| == |before| && p == before[..i]
    requires forall k :: 0 <= k < j ==> d[k] == p[k]
    requires d[j] == x
    requires forall k :: j < k <= i ==> d[k] == p[k - 1]
    requires forall k :: i < k < |d| ==> d[k] == before[k]
    ensures d[..i + 1] == p[..j] + [x] + p[j..]
    ensures d[i + 1..] == before[i + 1..]
  {
    forall k | 0 <= k <= i ensures d[..i + 1][k] == (p[..j] + [x] + p[j..])[k] {
      if k > j {
        assert (p[..j] + [x] + p[j..])[k] == p[k - 1];
      }
    }
  }

  /** Insert puts x straight after the last entry that does not rank after it. */
  lemma {:induction false} InsertAt(p: seq<Entry>, j: nat, x: Entry)
    requires j <= |p|
    requires j == 0 || Compare(p[j - 1], x) <= 0
    requires forall k :: j <= k < |p| ==> Compare(p[k], x) > 0
    ensures Insert(p, x) == p[..j] + [x] + p[j..]
    decreases |p|
  {
    if j < |p| {
      var q := p[..|p| - 1];
      assert forall k :: j <= k < |q| ==> Compare(q[k], x) > 0 by {
        forall k | j <= k < |q| ensures Compare(q[k], x) > 0 {
          assert q[k] == p[k];
        }
      }
      assert j > 0 ==> q[j - 1] == p[j - 1];
      InsertAt(q, j, x);
      assert p == q + [p[|p| - 1]];
      assert q[..j] == p[..j];
      assert p[j..] == q[j..] + [p[|p| - 1]];
    } else {
      assert p[..j] == p;
    }
  }

  /** Sorts the scores in place with the comparator, as JavaScript's stable `Array.prototype.sort` does. */
  method SortScores(a: array<Entry>)
    modifies a
    ensures a[..] == Rank(old(a[..]))
  {
    ghost var orig := a[..];
    var i := 0;
    while i < a.Length
      invariant 0 <= i <= a.Length
      invariant a[..i] == Rank(orig[..i])
      invariant a[i..] == orig[i..]
    {
      InsertLast(a, i);
      assert orig[..i + 1] == orig[..i] + [orig[i]];
      i := i + 1;
    }
    assert orig[..a.Length] == orig;
  }

  /** The persistence collaborator: an append-only list of entries. */
  class Store {
    var entries: seq<Entry>

    constructor ()
      ensures entries == []
    {
      entries := [];
    }

    /** `POST /api/leaderboard`: validates the body, then appends one entry; `writeOk` is the store's success. */
    method PostScore(body: Submission, writeOk: bool) returns (r: SubmitResponse)
      modifies this
      ensures !Accepts(body) ==> r == MissingData && entries == old(entries)
      ensures Accepts(body) && writeOk ==> r == Created && entries == old(entries) + [EntryOf(body)]
      ensures Accepts(body) && !writeOk ==> r == SaveError && entries == old(entries)
    {
      if !Accepts(body) {
        return MissingData;
      }
      if !writeOk {
        return SaveError;
      }
      entries := entries + [EntryOf(body)];
      r := Created;
    }

    /** `GET /api/leaderboard`: copies the stored entries, in the order the store reads them out
        (`listing`), into a fresh list and sorts it; `readOk` is the store's success. */
    method GetLeaderboard(readOk: bool, listing: seq<Entry>) returns (r: LeaderboardResponse)
      requires multiset(listing) == multiset(entries)
      ensures !readOk <==> r == FetchError
      ensures readOk ==> r == Scores(Rank(listing))
      ensures r.Scores? ==> Ranked(r.entries) && multiset(r.entries) == multiset(entries)
      ensures readOk && NoTies(entries) ==> r == Scores(Rank(entries))
    {
      if !readOk {
        return FetchError;
      }
      var scores := new Entry[|listing|];
      var k := 0;
      while k < |listing|
        invariant 0 <= k <= |listing|
        invariant scores[..k] == listing[..k]
      {
        scores[k] := listing[k];
        k := k + 1;
      }
      assert scores[..] == listing;
      SortScores(scores);
      RankIsRanked(listing);
      RankPermutes(listing);
      if NoTies(entries) {
        RankOrderFree(entries, listing);
      }
      r := Scores(scores[..]);
    }
  }
}
