/**
 * The record shapes of the magazine's content store and the two helpers in
 * `types.ts`: the status test that drives the not-found policy and the
 * reading-time estimate.
 */
module Types {
  import opened Wrappers

  // ---------------------------------------------------------------------------
  // Thrown values
  // ---------------------------------------------------------------------------

  /**
   * A JavaScript value as far as the error policy looks at it. `Object` and
   * `Function` carry their own `status` property when they have that key
   * (`Some`, whatever its value, `undefined` included) and `Object` its
   * `message`. Numbers are integers here: only `=== 404` is ever asked of them.
   */
  datatype JsValue =
    | Undefined
    | Null
    | Boolean(b: bool)
    | Number(n: int)
    | Str(s: string)
    | Object(status: Option<JsValue>, message: string)
    | Function(status: Option<JsValue>)

  /** The `typeof` operator; note that `typeof null` is "object". */
  function TypeOf(v: JsValue): string
  {
    match v
    case Undefined => "undefined"
    case Null => "object"
    case Boolean(_) => "boolean"
    case Number(_) => "number"
    case Str(_) => "string"
    case Object(_, _) => "object"
    case Function(_) => "function"
  }

  /** The `in` operator for the key "status" (only ever evaluated on objects). */
  predicate HasStatusKey(v: JsValue)
  {
    match v
    case Object(st, _) => st.Some?
    case Function(st) => st.Some?
    case _ => false
  }

  /**
   * `hasStatus`: `typeof error === 'object' && error !== null && 'status' in error`.
   * True exactly of non-null plain objects with a `status` key; the value of
   * that key is not looked at.
   */
  function HasStatus(error: JsValue): (b: bool)
    ensures b <==> error.Object? && error.status.Some?
  {
    TypeOf(error) == "object" && error != Null && HasStatusKey(error)
  }

  /** `new Error(message)`: an object with a message and no `status` key. */
  function ErrorWith(message: string): (e: JsValue)
    ensures !HasStatus(e) && e.Object? && e.message == message
  {
    Object(None, message)
  }

  // ---------------------------------------------------------------------------
  // Records
  // ---------------------------------------------------------------------------
  // Optional text fields are "" when absent: the source reads every one of them
  // through `||` or `&&`, where a missing field and an empty string behave alike.
  // Dates are the timestamps their strings parse to; `None` is an absent or
  // empty date string.

  /** A category record with its metadata (`name`, `description`, `color`). */
  datatype Category = Category(
    id: string, slug: string, title: string,
    name: string, description: string, color: string)

  /** An author record with its display name. */
  datatype Author = Author(id: string, slug: string, title: string, name: string)

  /**
   * A blog post with its author and categories embedded one level deep.
   * `categories` is `None` when the field is missing or is not an array.
   */
  datatype Post = Post(
    id: string, slug: string,
    createdAt: int, modifiedAt: Option<int>,
    content: string,
    author: Option<Author>,
    categories: Option<seq<Category>>,
    publishedDate: Option<int>)

  // ---------------------------------------------------------------------------
  // Reading time
  // ---------------------------------------------------------------------------

  /** The reading speed `calculateReadingTime` assumes, in words per minute. */
  const WordsPerMinute: nat := 200

  /** The characters the regular-expression class `\s` matches. */
  predicate IsWhitespace(c: char)
  {
    c == '\t' || c == '\n' || c == '\U{000B}' || c == '\U{000C}' || c == '\r' || c == ' '
    || c == '\U{00A0}' || c == '\U{1680}' || ('\U{2000}' <= c <= '\U{200A}')
    || c == '\U{2028}' || c == '\U{2029}' || c == '\U{202F}' || c == '\U{205F}'
    || c == '\U{3000}' || c == '\U{FEFF}'
  }

  predicate NoWhitespace(s: string)
  {
    forall i :: 0 <= i < |s| ==> !IsWhitespace(s[i])
  }

  /** `s` with its leading whitespace run removed. */
  function DropWhitespace(s: string): (r: string)
    ensures |r| <= |s| && r == s[|s| - |r|..]
    ensures r == [] || !IsWhitespace(r[0])
    ensures s != [] && IsWhitespace(s[0]) ==> |r| < |s|
    ensures forall i :: 0 <= i < |s| - |r| ==> IsWhitespace(s[i])
  {
    if s != [] && IsWhitespace(s[0]) then DropWhitespace(s[1..]) else s
  }

  /**
   * `s.split(/\s+/)`: the pieces between maximal whitespace runs. A leading or
   * trailing run yields an empty first or last piece, and there is always at
   * least one piece.
   */
  function SplitOnWhitespace(s: string): (pieces: seq<string>)
    ensures |pieces| >= 1
    ensures forall i :: 0 <= i < |pieces| ==> NoWhitespace(pieces[i])
    ensures NoWhitespace(s) ==> pieces == [s]
    ensures !NoWhitespace(s) ==> |pieces| >= 2
    ensures s != [] && IsWhitespace(s[0]) ==> pieces[0] == ""
    ensures s != [] && IsWhitespace(s[|s| - 1]) ==> pieces[|pieces| - 1] == ""
    decreases |s|
  {
    if s == [] then [""]
    else if IsWhitespace(s[0]) then [""] + SplitOnWhitespace(DropWhitespace(s))
    else
      var rest := SplitOnWhitespace(s[1..]);
      assert NoWhitespace(s) ==> NoWhitespace(s[1..]);
      assert !NoWhitespace(s) ==> !NoWhitespace(s[1..]);
      assert s == [s[0]] + s[1..];
      [[s[0]] + rest[0]] + rest[1..]
  }

  /**
   * The number of whitespace runs met in a left-to-right scan of `s`: a run
   * starts at each whitespace character not preceded by one (`afterSpace` says
   * whether the character before `s` was whitespace).
   */
  function RunsFrom(s: string, afterSpace: bool): nat
  {
    if s == [] then 0
    else (if IsWhitespace(s[0]) && !afterSpace then 1 else 0) + RunsFrom(s[1..], IsWhitespace(s[0]))
  }

  /** The number of maximal whitespace runs in `s`. */
  function WhitespaceRuns(s: string): nat
  {
    RunsFrom(s, false)
  }

  /** `calculateReadingTime`: minutes to read `content`, rounded up. */
  function ReadingTime(content: string): (minutes: nat)
    ensures minutes >= 1
    ensures var words := |SplitOnWhitespace(content)|;
      (minutes - 1) * WordsPerMinute < words <= minutes * WordsPerMinute
  {
    var words := |SplitOnWhitespace(content)|;
    (words + WordsPerMinute - 1) / WordsPerMinute
  }

  /**
   * The reading time a post card, the hero or a post page shows:
   * `calculateReadingTime(post.metadata?.content || '')`, where a post without
   * content reads as the empty text.
   */
  function PostReadingTime(p: Post): (minutes: nat)
    ensures minutes >= 1
    ensures var words := |SplitOnWhitespace(p.content)|;
      (minutes - 1) * WordsPerMinute < words <= minutes * WordsPerMinute
    ensures p.content == "" ==> minutes == 1
  {
    ReadingTime(p.content)
  }

  /** After a whitespace character, a scan counts the same runs as after its whole run. */
  lemma {:induction false} RunsAfterSpace(s: string)
    ensures RunsFrom(s, true) == RunsFrom(DropWhitespace(s), false)
    decreases |s|
  {
    if s != [] && IsWhitespace(s[0]) {
      RunsAfterSpace(s[1..]);
    }
  }

  /** The split yields one piece more than there are whitespace runs. */
  lemma {:induction false} SplitCount(s: string)
    ensures |SplitOnWhitespace(s)| == 1 + WhitespaceRuns(s)
    decreases |s|
  {
    if s == [] {
    } else if IsWhitespace(s[0]) {
      var rest := DropWhitespace(s);
      SplitCount(rest);
      RunsAfterSpace(s[1..]);
      assert DropWhitespace(s[1..]) == rest;
    } else {
      SplitCount(s[1..]);
    }
  }

  /** Appending text never removes a whitespace run from the part before it. */
  lemma {:induction false} RunsGrow(s: string, t: string, afterSpace: bool)
    ensures RunsFrom(s, afterSpace) <= RunsFrom(s + t, afterSpace)
    decreases |s|
  {
    if s != [] {
      assert (s + t)[0] == s[0] && (s + t)[1..] == s[1..] + t;
      RunsGrow(s[1..], t, IsWhitespace(s[0]));
    }
  }

  /** Adding words to a text never shortens its reading time. */
  lemma ReadingTimeMonotone(s: string, t: string)
    ensures ReadingTime(s) <= ReadingTime(s + t)
  {
    SplitCount(s);
    SplitCount(s + t);
    RunsGrow(s, t, false);
  }

  /** Two hundred words are one minute, the two hundred and first starts the second. */
  lemma ReadingTimeBoundary(s: string, t: string)
    requires |SplitOnWhitespace(s)| == WordsPerMinute
    requires |SplitOnWhitespace(t)| == WordsPerMinute + 1
    ensures ReadingTime(s) == 1 && ReadingTime(t) == 2
  {
  }

  /** The empty text still reads as one minute: its split is one empty piece. */
  lemma ReadingTimeOfEmpty()
    ensures SplitOnWhitespace("") == [""]
    ensures ReadingTime("") == 1
  {
  }
}
