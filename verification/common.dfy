/**
 * Shared vocabulary of the reading-list service: optional (nullable) values,
 * the single error taxonomy that replaces the service's exception classes,
 * results, instants, and ASCII case folding for `equalsIgnoreCase`.
 */
module Common {

  /** A Java reference that may be null: `None` is null. */
  datatype Option<+T> = None | Some(value: T) {

    /** The value, or `default` when null. */
    function GetOr(default: T): T {
      match this
      case Some(v) => v
      case None => default
    }
  }

  /** Every failure an operation of the core can end with. */
  datatype Error =
    | NotFound(message: string)          // NotFoundException
    | Forbidden(message: string)         // AccessException(FORBIDDEN)
    | Malformed(url: string)             // the URL string is not a URI
    | UnknownStatus(code: int)           // HttpStatus.resolve gave null
    | NoAccess                           // the server answered 401
    | UpstreamError(code: int)           // any other 4xx or 5xx answer
    | Unsupported(mediaType: string)     // neither text, image nor video
    | InvalidMediaType(header: string)   // Content-Type that cannot be parsed
    | IllegalArgument(message: string)   // IllegalArgumentException from a library
    | DivisionByZero                     // ArithmeticException of an integer division
    | InvalidDate(text: string)          // DateTimeParseException of Instant.parse

  /** An operation's outcome: a value, or the error that ended it. */
  datatype Result<+T> = Success(value: T) | Failure(error: Error)

  /** The messages of a page request's argument checks. */
  const PageIndexMessage := "Page index must not be less than zero"
  const PageSizeMessage := "Page size must not be less than one"

  /** The repository's answer to a lookup by a null id. */
  const NullIdMessage := "The given id must not be null"

  /** Instants are abstract points on a time line, compared by `<=`. */
  type Instant = int

  /** ASCII lower-casing of one character; other characters are unchanged. */
  function LowerChar(c: char): (r: char)
    ensures 'A' <= c <= 'Z' ==> 'a' <= r <= 'z'
    ensures !('A' <= c <= 'Z') ==> r == c
  {
    if 'A' <= c <= 'Z' then (c as int + 32) as char else c
  }

  /** ASCII lower-casing of a string, character by character. */
  function Lower(s: string): (r: string)
    ensures |r| == |s|
    ensures forall i :: 0 <= i < |s| ==> r[i] == LowerChar(s[i])
  {
    if s == [] then [] else [LowerChar(s[0])] + Lower(s[1..])
  }

  /** `a.equalsIgnoreCase(b)`: equal after case folding, and so of equal length. */
  predicate EqualsIgnoreCase(a: string, b: string) {
    Lower(a) == Lower(b)
  }

  /** A non-empty set has an element (the witness for picking one). */
  lemma NonEmptyHasElement(s: set<int>)
    requires s != {}
    ensures exists x :: x in s
  {
    assert (forall x :: x !in s) ==> s == {};
  }

  /** A subset is no larger than its superset. */
  lemma {:induction false} SubsetCardinality(a: set<int>, b: set<int>)
    requires a <= b
    ensures |a| <= |b|
    decreases a
  {
    if a != {} {
      NonEmptyHasElement(a);
      var x :| x in a;
      SubsetCardinality(a - {x}, b - {x});
    }
  }

  /** A string without upper-case ASCII letters. */
  predicate IsLowercase(s: string) {
    forall i :: 0 <= i < |s| ==> !('A' <= s[i] <= 'Z')
  }

  /** Between strings already in lower case, ignoring case is plain equality. */
  lemma EqualsIgnoreCaseOfLowercase(a: string, b: string)
    requires IsLowercase(a) && IsLowercase(b)
    ensures EqualsIgnoreCase(a, b) <==> a == b
  {
    assert Lower(a) == a;
    assert Lower(b) == b;
  }

  /** The position of an element of a sequence. */
  lemma {:induction false} PositionOf(s: seq<int>, x: int) returns (j: nat)
    requires x in s
    ensures j < |s| && s[j] == x
  {
    if s[0] == x {
      j := 0;
    } else {
      assert x in s[1..];
      var j' := PositionOf(s[1..], x);
      j := j' + 1;
    }
  }
}
