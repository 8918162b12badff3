/** Small failure-carrying datatypes shared by every module, and the two
    exception classes the chat core throws. */
module Common {

  datatype Option<+T> = None | Some(value: T)

  /** The Java exceptions the core raises: IllegalArgumentException for a
      bad request (self-kick, absent target, unknown room or category,
      duplicate category) and IllegalStateException when no free room id
      could be generated. */
  datatype Error = IllegalArgument | IllegalState

  /** The result of a Java method that returns a value or throws. */
  datatype Result<+T> = Success(value: T) | Failure(error: Error)

  /** The result of a `void` Java method that may throw. */
  datatype Outcome = Pass | Fail(error: Error)

  /** Does `word` occur as a contiguous piece of `text`? */
  ghost predicate Mentions(text: string, word: string) {
    exists i, j :: 0 <= i <= j <= |text| && text[i..j] == word
  }

  /** `a + w + b` mentions `w`: the witness is the slice right after `a`. */
  lemma MentionsInMiddle(a: string, w: string, b: string)
    ensures Mentions(a + w + b, w)
  {
    var t := a + w + b;
    assert t[|a|..|a| + |w|] == w;
  }
}
