/** The values that travel between the quiz page and the leaderboard service as JSON. */
module Api {

  /** One quiz question: its text, the option strings in display order, and the correct option. */
  datatype Question = Question(text: string, options: seq<string>, answer: string)

  /** An optional value. */
  datatype Option<T> = None | Some(value: T)

  /** A field of a request body: absent (`undefined`) or present with a value. */
  datatype Field<T> = Missing | Present(value: T)

  /** The body of `POST /api/leaderboard`, as the service destructures it. */
  datatype Submission = Submission(
    username: Field<string>,
    score: Field<int>,
    total: Field<int>,
    difficulty: Field<string>)

  /** One stored leaderboard record (the server-side timestamp is not modelled). */
  datatype Entry = Entry(username: string, score: int, total: int, difficulty: string)

  /** JavaScript truthiness of a string field: present and not the empty string. */
  predicate TruthyString(f: Field<string>) {
    f.Present? && f.value != ""
  }

  /** JavaScript truthiness of a number field: present and not zero. */
  predicate TruthyNumber(f: Field<int>) {
    f.Present? && f.value != 0
  }
}
