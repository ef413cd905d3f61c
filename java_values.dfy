/** The few pieces of Java and json-simple behaviour that CountResources relies on:
    null references, the exceptions that can escape a scan, `(String)` casts of JSON
    members, string conversion in `+`, and `String.contains`. */
module JavaValues {

  /** A nullable Java reference: None stands for null. */
  datatype Option<+T> = None | Some(value: T)

  /** The outcome of a call that may throw. */
  datatype Result<+T, +E> = Success(value: T) | Failure(error: E)

  /** The exceptions the core can raise. Malformed is json-simple's checked
      ParseException; the other three are the unchecked NullPointerException,
      IndexOutOfBoundsException and ClassCastException. */
  datatype Failure = Malformed | NullPointer | IndexOutOfBounds | ClassCast

  /** A member of a parsed JSON object as a `(String)` cast sees it: Absent when the
      member is missing or JSON null (json-simple returns null for both), Text for a
      JSON string, NonText for any other JSON value. */
  datatype Field = Absent | Text(text: string) | NonText

  /** `(String) json.get(key)`: null passes as null, a string passes, anything else
      throws ClassCastException. */
  function CastString(f: Field): Result<Option<string>, Failure> {
    match f
    case Absent => Success(None)
    case Text(s) => Success(Some(s))
    case NonText => Failure(ClassCast)
  }

  /** A String operand of `+` as Java converts it: null becomes the text "null". */
  function JavaText(s: Option<string>): string {
    match s
    case None => "null"
    case Some(t) => t
  }

  predicate IsPrefix(p: string, s: string) {
    |p| <= |s| && p == s[..|p|]
  }

  /** `s.contains(sub)`: sub is a prefix of s or of one of its suffixes. */
  predicate Contains(s: string, sub: string)
    decreases |s|
  {
    IsPrefix(sub, s) || (|s| > 0 && Contains(s[1..], sub))
  }

  /** sub is spelled by the window of s that starts at i. */
  predicate OccursAt(s: string, sub: string, i: int) {
    0 <= i <= |s| - |sub| && s[i..i + |sub|] == sub
  }

  /** Contains agrees with the direct reading: some window of s spells sub. */
  lemma {:induction false} ContainsIffOccurs(s: string, sub: string)
    ensures Contains(s, sub) <==> exists i :: OccursAt(s, sub, i)
    decreases |s|
  {
    if Contains(s, sub) {
      if IsPrefix(sub, s) {
        assert OccursAt(s, sub, 0);
      } else {
        ContainsIffOccurs(s[1..], sub);
        var i :| OccursAt(s[1..], sub, i);
        assert s[i + 1..i + 1 + |sub|] == s[1..][i..i + |sub|];
        assert OccursAt(s, sub, i + 1);
      }
    }
    if exists i :: OccursAt(s, sub, i) {
      var i :| OccursAt(s, sub, i);
      if i == 0 {
        assert IsPrefix(sub, s);
      } else {
        assert s[1..][i - 1..i - 1 + |sub|] == s[i..i + |sub|];
        assert OccursAt(s[1..], sub, i - 1);
        ContainsIffOccurs(s[1..], sub);
      }
    }
  }

  /** `s.contains("")` holds for every s. */
  lemma ContainsEmpty(s: string)
    ensures Contains(s, "")
  {
    assert IsPrefix("", s);
  }
}
