/**
 * Truncation of execution output before display: a cap on the number of
 * lines, then a cap on the number of characters, then a marker naming the
 * limit that applied. Each `char` stands for one UTF-16 code unit; surrogate
 * pairs are not represented.
 */
module OutputLimiter {

  const MAX_OUTPUT_LENGTH: nat := 100000
  const MAX_OUTPUT_LINES: nat := 1000

  const TRUNCATION_PREFIX: string := "\n\n... [Output truncated. "
  const LINE_LIMIT_REASON: string := "Exceeded 1000 line limit"
  const CHARACTER_LIMIT_REASON: string := "Exceeded 100000 character limit"

  datatype TruncationResult = TruncationResult(
    text: string,
    wasTruncated: bool,
    originalLines: nat,
    originalSize: nat)

  // ---------------------------------------------------------------------
  // Lines
  // ---------------------------------------------------------------------

  /** The number of line breaks in `s`. */
  function NewlineCount(s: string): nat
  {
    if s == [] then 0 else (if s[0] == '\n' then 1 else 0) + NewlineCount(s[1..])
  }

  lemma {:induction false} NewlineCountAppend(a: string, b: string)
    ensures NewlineCount(a + b) == NewlineCount(a) + NewlineCount(b)
  {
    if a != [] {
      assert (a + b)[1..] == a[1..] + b;
      NewlineCountAppend(a[1..], b);
    } else {
      assert a + b == b;
    }
  }

  /** A prefix has no more line breaks than the whole. */
  lemma NewlineCountPrefix(a: string, b: string)
    requires a <= b
    ensures NewlineCount(a) <= NewlineCount(b)
  {
    assert b == a + b[|a|..];
    NewlineCountAppend(a, b[|a|..]);
  }

  /** `s.split('\n')`: the pieces between line breaks, one more than there are breaks. */
  function Split(s: string): (parts: seq<string>)
    ensures |parts| == NewlineCount(s) + 1
    ensures forall i :: 0 <= i < |parts| ==> '\n' !in parts[i]
  {
    if s == [] then [""]
    else
      var rest := Split(s[1..]);
      if s[0] == '\n' then [""] + rest
      else [[s[0]] + rest[0]] + rest[1..]
  }

  /** `parts.join('\n')`. */
  function Join(parts: seq<string>): string
  {
    if parts == [] then ""
    else if |parts| == 1 then parts[0]
    else parts[0] + "\n" + Join(parts[1..])
  }

  /** Joining the pieces of a split gives back the original text. */
  lemma {:induction false} JoinSplit(s: string)
    ensures Join(Split(s)) == s
  {
    if s != [] {
      var rest := Split(s[1..]);
      JoinSplit(s[1..]);
      if s[0] == '\n' {
        assert Split(s) == [""] + rest;
        assert ([""] + rest)[1..] == rest;
      } else {
        assert Split(s) == [[s[0]] + rest[0]] + rest[1..];
        if |rest| > 1 {
          assert ([[s[0]] + rest[0]] + rest[1..])[1..] == rest[1..];
        }
      }
    }
  }

  /** Joining the first `k` pieces gives a prefix of joining them all. */
  lemma {:induction false} JoinPrefix(parts: seq<string>, k: nat)
    requires 1 <= k <= |parts|
    ensures Join(parts[..k]) <= Join(parts)
  {
    if k > 1 {
      JoinPrefix(parts[1..], k - 1);
      assert parts[..k][1..] == parts[1..][..k - 1];
    }
  }

  /** Joining all pieces is joining the first `k`, a line break, and joining the rest. */
  lemma {:induction false} JoinAt(parts: seq<string>, k: nat)
    requires 1 <= k < |parts|
    ensures Join(parts) == Join(parts[..k]) + "\n" + Join(parts[k..])
  {
    if k > 1 {
      JoinAt(parts[1..], k - 1);
      assert parts[1..][..k - 1] == parts[..k][1..];
      assert parts[1..][k - 1..] == parts[k..];
    } else {
      assert parts[..1] == [parts[0]];
    }
  }

  /** Joining pieces without line breaks puts exactly one break between neighbours. */
  lemma {:induction false} JoinNewlines(parts: seq<string>)
    requires |parts| >= 1
    requires forall i :: 0 <= i < |parts| ==> '\n' !in parts[i]
    ensures NewlineCount(Join(parts)) == |parts| - 1
  {
    NoBreakNoNewline(parts[0]);
    if |parts| > 1 {
      JoinNewlines(parts[1..]);
      NewlineCountAppend(parts[0], "\n");
      NewlineCountAppend(parts[0] + "\n", Join(parts[1..]));
    }
  }

  lemma {:induction false} NoBreakNoNewline(s: string)
    requires '\n' !in s
    ensures NewlineCount(s) == 0
  {
    if s != [] {
      NoBreakNoNewline(s[1..]);
    }
  }

  // ---------------------------------------------------------------------
  // The two caps
  // ---------------------------------------------------------------------

  /**
   * The first `MAX_OUTPUT_LINES` lines of `text`, or all of it when it has no
   * more: when the cap applies, the prefix that ends just before the
   * `MAX_OUTPUT_LINES`-th line break.
   */
  function LineCapped(text: string): (r: string)
    ensures r <= text
    ensures NewlineCount(r) < MAX_OUTPUT_LINES
    ensures NewlineCount(text) < MAX_OUTPUT_LINES ==> r == text
    ensures NewlineCount(text) >= MAX_OUTPUT_LINES ==>
              && NewlineCount(r) == MAX_OUTPUT_LINES - 1
              && |r| < |text| && text[|r|] == '\n'
  {
    var lines := Split(text);
    if |lines| > MAX_OUTPUT_LINES then
      JoinSplit(text);
      JoinAt(lines, MAX_OUTPUT_LINES);
      JoinNewlines(lines[..MAX_OUTPUT_LINES]);
      Join(lines[..MAX_OUTPUT_LINES])
    else
      text
  }

  /**
   * The text kept in front of the marker: the line cap, then the first
   * `MAX_OUTPUT_LENGTH` characters of what it kept.
   */
  function Capped(text: string): (r: string)
    ensures r <= LineCapped(text) && r <= text
    ensures |r| == if |LineCapped(text)| > MAX_OUTPUT_LENGTH then MAX_OUTPUT_LENGTH else |LineCapped(text)|
    ensures NewlineCount(r) < MAX_OUTPUT_LINES
    ensures NewlineCount(text) < MAX_OUTPUT_LINES && |text| <= MAX_OUTPUT_LENGTH ==> r == text
  {
    var lines := LineCapped(text);
    if |lines| > MAX_OUTPUT_LENGTH then
      NewlineCountPrefix(lines[..MAX_OUTPUT_LENGTH], lines);
      lines[..MAX_OUTPUT_LENGTH]
    else
      lines
  }

  /** The limit named in the marker: the character limit wins when both apply. */
  function TruncationReason(text: string): string
  {
    if |LineCapped(text)| > MAX_OUTPUT_LENGTH then CHARACTER_LIMIT_REASON else LINE_LIMIT_REASON
  }

  /**
   * `truncateOutput`: empty input comes back as it is; otherwise the
   * statistics describe the input, input within both limits comes back
   * unchanged, and longer input is cut to `Capped(text)` followed by the
   * marker.
   */
  function TruncateOutput(text: string): (r: TruncationResult)
    ensures text == "" ==> r == TruncationResult("", false, 0, 0)
    ensures text != "" ==> r.originalSize == |text| && r.originalLines == NewlineCount(text) + 1
    ensures r.wasTruncated <==> r.originalLines > MAX_OUTPUT_LINES || |text| > MAX_OUTPUT_LENGTH
    ensures !r.wasTruncated ==> r.text == text
    ensures r.wasTruncated ==>
              r.text == Capped(text) + TRUNCATION_PREFIX + TruncationReason(text) + "]"
  {
    if text == "" then
      TruncationResult(text, false, 0, 0)
    else
      var lines := Split(text);
      var originalLines := |lines|;
      var originalSize := |text|;
      var (afterLines, lineCut) :=
        if |lines| > MAX_OUTPUT_LINES then (LineCapped(text), true) else (text, false);
      var (afterChars, charCut) :=
        if |afterLines| > MAX_OUTPUT_LENGTH then (afterLines[..MAX_OUTPUT_LENGTH], true) else (afterLines, false);
      var wasTruncated := lineCut || charCut;
      var reason := if charCut then CHARACTER_LIMIT_REASON else if lineCut then LINE_LIMIT_REASON else "";
      var shown := if wasTruncated then afterChars + TRUNCATION_PREFIX + reason + "]" else afterChars;
      TruncationResult(shown, wasTruncated, originalLines, originalSize)
  }

  /**
   * When the output is truncated, what precedes the marker is a prefix of the
   * input with at most `MAX_OUTPUT_LINES` lines and `MAX_OUTPUT_LENGTH`
   * characters.
   */
  lemma TruncatedShape(text: string)
    requires TruncateOutput(text).wasTruncated
    ensures exists body: string, reason: string ::
              && body <= text
              && |body| <= MAX_OUTPUT_LENGTH
              && NewlineCount(body) + 1 <= MAX_OUTPUT_LINES
              && (reason == LINE_LIMIT_REASON || reason == CHARACTER_LIMIT_REASON)
              && TruncateOutput(text).text == body + TRUNCATION_PREFIX + reason + "]"
  {
    var body, reason := Capped(text), TruncationReason(text);
    assert TruncateOutput(text).text == body + TRUNCATION_PREFIX + reason + "]";
  }

  /** Output within both limits is shown as it is. */
  lemma SmallOutputUnchanged(text: string)
    requires NewlineCount(text) + 1 <= MAX_OUTPUT_LINES && |text| <= MAX_OUTPUT_LENGTH
    ensures TruncateOutput(text).text == text && !TruncateOutput(text).wasTruncated
  {
  }
}
