/** Values and string helpers shared by every collector: JavaScript's optional values,
    thrown values, truthiness, `slice(0, n)`, decimal formatting of indices, and the
    `join('\n')` / `split('\n')` / `trim()` pair used by the newline-delimited files. */
module Common {

  datatype Option<T> = None | Some(value: T) {
    function GetOr(default: T): T {
      match this
      case Some(v) => v
      case None => default
    }
  }

  /** A value thrown by JavaScript code: an `Error` object (with its message) or anything else. */
  datatype Thrown = ErrorObject(message: string) | OtherValue

  /** An awaited call: it either settles with a value or throws. */
  datatype Outcome<T> = Ok(value: T) | Threw(thrown: Thrown)

  /** `error instanceof Error ? error.message : 'Unknown error'` */
  function ErrorText(t: Thrown): (s: string)
    ensures t.OtherValue? ==> s == "Unknown error"
    ensures t.ErrorObject? ==> s == t.message
  {
    match t
    case ErrorObject(m) => m
    case OtherValue => "Unknown error"
  }

  /** JavaScript truthiness of an optional string field: `undefined` and `""` are falsy. */
  predicate Truthy(s: Option<string>) {
    s.Some? && s.value != ""
  }

  /** A value of `Math.random()`: a real in [0, 1). */
  type Unit = r: real | 0.0 <= r < 1.0

  /** `Math.floor(r * n)` for a random `r`: always a valid index into a list of `n` items. */
  function ScaledIndex(r: Unit, n: nat): (k: int)
    requires n > 0
    ensures 0 <= k < n
  {
    assert r * (n as real) < n as real by {
      assert (n as real) - r * (n as real) == (1.0 - r) * (n as real);
    }
    (r * (n as real)).Floor
  }

  function Min(a: int, b: int): int { if a <= b then a else b }
  function Max(a: int, b: int): int { if a <= b then b else a }

  /** `s.slice(0, end)`: a non-negative `end` keeps at most `end` items, a negative one
      drops `-end` items from the back. */
  function SlicePrefix<T>(s: seq<T>, end: int): (r: seq<T>)
    ensures |r| == if end >= 0 then Min(end, |s|) else Max(|s| + end, 0)
    ensures r == s[..|r|]
  {
    if end >= 0 then s[..Min(end, |s|)] else s[..Max(|s| + end, 0)]
  }

  /** `p` lists each of the indices `0 .. n - 1` exactly once. */
  predicate IsPermutation(p: seq<nat>, n: nat) {
    && |p| == n
    && (forall k :: 0 <= k < n ==> p[k] < n)
    && (forall i, j :: 0 <= i < j < n ==> p[i] != p[j])
  }

  // ---------------------------------------------------------------------------
  // Decimal text of an index, as template literals `${i}` produce it.

  function DigitChar(d: nat): char
    requires d < 10
  {
    "0123456789"[d]
  }

  function NatToString(n: nat): (s: string)
    ensures |s| >= 1
    ensures (|s| == 1) == (n < 10)
  {
    if n < 10 then [DigitChar(n)] else NatToString(n / 10) + [DigitChar(n % 10)]
  }

  /** Different indices have different decimal texts. */
  lemma {:induction false} NatToStringInjective(a: nat, b: nat)
    requires NatToString(a) == NatToString(b)
    ensures a == b
  {
    var s := NatToString(a);
    if a >= 10 && b >= 10 {
      assert s[|s| - 1] == DigitChar(a % 10) == DigitChar(b % 10);
      assert a % 10 == b % 10;
      assert NatToString(a / 10) == s[..|s| - 1] == NatToString(b / 10);
      NatToStringInjective(a / 10, b / 10);
    } else {
      assert a < 10 && b < 10;
      assert DigitChar(a) == s[0] == DigitChar(b);
    }
  }

  /** `prefix + x + suffix` determines `x`. */
  lemma Framed(prefix: string, x: string, y: string, suffix: string)
    requires prefix + x + suffix == prefix + y + suffix
    ensures x == y
  {
    var s := prefix + x + suffix;
    assert |x| == |y|;
    assert x == s[|prefix|..|prefix| + |x|];
    assert y == (prefix + y + suffix)[|prefix|..|prefix| + |y|];
  }

  /** Names built as `prefix + ${i} + suffix` are unique per index. */
  lemma IndexedNameInjective(prefix: string, suffix: string, i: nat, j: nat)
    requires i != j
    ensures prefix + NatToString(i) + suffix != prefix + NatToString(j) + suffix
  {
    if prefix + NatToString(i) + suffix == prefix + NatToString(j) + suffix {
      Framed(prefix, NatToString(i), NatToString(j), suffix);
      NatToStringInjective(i, j);
    }
  }

  // ---------------------------------------------------------------------------
  // Substrings and ASCII case.

  /** `s.includes(sub)` */
  predicate Contains(s: string, sub: string)
    decreases |s|
  {
    sub <= s || (|s| > 0 && Contains(s[1..], sub))
  }

  function LowerChar(c: char): char {
    if 'A' <= c <= 'Z' then (c as int + 32) as char else c
  }

  function UpperChar(c: char): char {
    if 'a' <= c <= 'z' then (c as int - 32) as char else c
  }

  /** `s.toLowerCase()` on the ASCII letters. */
  function ToLower(s: string): (r: string)
    ensures |r| == |s|
    ensures forall k :: 0 <= k < |s| ==> r[k] == LowerChar(s[k])
  {
    seq(|s|, k requires 0 <= k < |s| => LowerChar(s[k]))
  }

  lemma ToLowerIdempotent(s: string)
    ensures ToLower(ToLower(s)) == ToLower(s)
  {
  }

  // ---------------------------------------------------------------------------
  // Newline-delimited text: `lines.join(sep)`, `text.split(sep)`, `text.trim()`.

  /** `lines.join(sep)`; the empty list joins to "", one line to itself, and more lines have
      the separator after the first line. */
  function Join(lines: seq<string>, sep: char): (text: string)
    ensures |lines| == 0 ==> text == ""
    ensures |lines| == 1 ==> text == lines[0]
    ensures |lines| >= 2 ==> |text| > |lines[0]| && text[..|lines[0]|] == lines[0] && text[|lines[0]|] == sep
    decreases |lines|
  {
    if |lines| == 0 then ""
    else if |lines| == 1 then lines[0]
    else lines[0] + [sep] + Join(lines[1..], sep)
  }

  /** `text.split(sep)`: always at least one piece, and no piece holds `sep`. */
  function Split(text: string, sep: char): (pieces: seq<string>)
    ensures |pieces| >= 1
    ensures forall k :: 0 <= k < |pieces| ==> sep !in pieces[k]
    decreases |text|
  {
    if |text| == 0 then [""]
    else
      var rest := Split(text[1..], sep);
      if text[0] == sep then [""] + rest
      else [[text[0]] + rest[0]] + rest[1..]
  }

  /** Splitting undoes joining, for lines free of the separator. */
  lemma {:induction false} SplitJoin(lines: seq<string>, sep: char)
    requires |lines| >= 1
    requires forall k :: 0 <= k < |lines| ==> sep !in lines[k]
    ensures Split(Join(lines, sep), sep) == lines
    decreases |lines|
  {
    if |lines| == 1 {
      SplitPlain(lines[0], [], sep);
      assert lines[0] + [] == lines[0];
    } else {
      SplitJoin(lines[1..], sep);
      SplitPlain(lines[0], [sep] + Join(lines[1..], sep), sep);
      assert lines[0] + [sep] + Join(lines[1..], sep) == lines[0] + ([sep] + Join(lines[1..], sep));
      assert ([sep] + Join(lines[1..], sep))[1..] == Join(lines[1..], sep);
      assert lines == [lines[0]] + lines[1..];
    }
  }

  /** A join of non-empty lines starts with the first line's first character and ends with
      the last line's last character. */
  lemma {:induction false} JoinEnds(lines: seq<string>, sep: char)
    requires |lines| >= 1
    requires forall k :: 0 <= k < |lines| ==> |lines[k]| > 0
    ensures |Join(lines, sep)| > 0
    ensures Join(lines, sep)[0] == lines[0][0]
    ensures Join(lines, sep)[|Join(lines, sep)| - 1] == lines[|lines| - 1][|lines[|lines| - 1]| - 1]
    decreases |lines|
  {
    if |lines| > 1 {
      JoinEnds(lines[1..], sep);
      var tail := Join(lines[1..], sep);
      assert Join(lines, sep) == lines[0] + [sep] + tail;
      assert lines[1..][|lines[1..]| - 1] == lines[|lines| - 1];
    }
  }

  /** Splitting `x + tail` where `x` holds no separator extends the first piece of `tail`. */
  lemma {:induction false} SplitPlain(x: string, tail: string, sep: char)
    requires sep !in x
    ensures tail == [] ==> Split(x + tail, sep) == [x]
    ensures |tail| > 0 && tail[0] == sep ==> Split(x + tail, sep) == [x] + Split(tail[1..], sep)
    decreases |x|
  {
    if |x| > 0 {
      SplitPlain(x[1..], tail, sep);
      assert (x + tail)[1..] == x[1..] + tail;
      assert [x[0]] + x[1..] == x;
    } else {
      assert x + tail == tail;
    }
  }

  /** Joining undoes splitting, for every text. */
  lemma {:induction false} JoinSplit(text: string, sep: char)
    ensures Join(Split(text, sep), sep) == text
    decreases |text|
  {
    if |text| > 0 {
      var rest := Split(text[1..], sep);
      JoinSplit(text[1..], sep);
      if text[0] == sep {
        assert Split(text, sep)[1..] == rest;
        assert text == [sep] + text[1..];
      } else {
        var pieces := Split(text, sep);
        assert pieces[0] == [text[0]] + rest[0];
        assert pieces[1..] == rest[1..];
        if |rest| == 1 {
          assert text == [text[0]] + rest[0];
        } else {
          assert Join(rest, sep) == rest[0] + [sep] + Join(rest[1..], sep);
          assert text == [text[0]] + text[1..];
        }
      }
    }
  }

  /** White space and line terminators as `String.prototype.trim` removes them. */
  predicate IsJsSpace(c: char) {
    c == '\t' || c == '\n' || c == '\U{000B}' || c == '\U{000C}' || c == '\r' || c == ' '
    || c == '\U{00A0}' || c == '\U{1680}' || ('\U{2000}' <= c <= '\U{200A}')
    || c == '\U{2028}' || c == '\U{2029}' || c == '\U{202F}' || c == '\U{205F}'
    || c == '\U{3000}' || c == '\U{FEFF}'
  }

  function TrimStart(s: string): string
    decreases |s|
  {
    if |s| > 0 && IsJsSpace(s[0]) then TrimStart(s[1..]) else s
  }

  function TrimEnd(s: string): string
    decreases |s|
  {
    if |s| > 0 && IsJsSpace(s[|s| - 1]) then TrimEnd(s[..|s| - 1]) else s
  }

  /** `s.trim()`: drops leading and trailing white space, keeping what lies between. */
  function Trim(s: string): (r: string)
    ensures |r| > 0 ==> !IsJsSpace(r[0]) && !IsJsSpace(r[|r| - 1])
    ensures exists i, j {:trigger s[i..j]} ::
              && 0 <= i <= j <= |s| && r == s[i..j]
              && (forall k :: 0 <= k < i ==> IsJsSpace(s[k]))
              && (forall k :: j <= k < |s| ==> IsJsSpace(s[k]))
  {
    TrimBounds(s);
    TrimEnd(TrimStart(s))
  }

  lemma {:induction false} TrimBounds(s: string)
    ensures |TrimEnd(TrimStart(s))| > 0 ==>
      !IsJsSpace(TrimEnd(TrimStart(s))[0]) && !IsJsSpace(TrimEnd(TrimStart(s))[|TrimEnd(TrimStart(s))| - 1])
    ensures exists i, j {:trigger s[i..j]} ::
              && 0 <= i <= j <= |s| && TrimEnd(TrimStart(s)) == s[i..j]
              && (forall k :: 0 <= k < i ==> IsJsSpace(s[k]))
              && (forall k :: j <= k < |s| ==> IsJsSpace(s[k]))
  {
    var a := TrimStartAt(s);
    var b := TrimEndAt(s[a..]);
    assert s[a..][..b] == s[a..a + b];
    forall k | a + b <= k < |s|
      ensures IsJsSpace(s[k])
    {
      assert s[k] == s[a..][k - a];
    }
  }

  lemma {:induction false} TrimStartAt(s: string) returns (a: nat)
    ensures a <= |s| && TrimStart(s) == s[a..]
    ensures |s[a..]| > 0 ==> !IsJsSpace(s[a])
    ensures forall k :: 0 <= k < a ==> IsJsSpace(s[k])
    decreases |s|
  {
    if |s| > 0 && IsJsSpace(s[0]) {
      var a' := TrimStartAt(s[1..]);
      a := a' + 1;
      assert s[1..][a'..] == s[a..];
    } else {
      a := 0;
    }
  }

  lemma {:induction false} TrimEndAt(s: string) returns (b: nat)
    ensures b <= |s| && TrimEnd(s) == s[..b]
    ensures b > 0 ==> !IsJsSpace(s[b - 1])
    ensures |s| > 0 && !IsJsSpace(s[0]) ==> b > 0
    ensures forall k :: b <= k < |s| ==> IsJsSpace(s[k])
    decreases |s|
  {
    if |s| > 0 && IsJsSpace(s[|s| - 1]) {
      b := TrimEndAt(s[..|s| - 1]);
      assert s[..|s| - 1][..b] == s[..b];
    } else {
      b := |s|;
      assert s[..|s|] == s;
    }
  }

  /** Text that neither starts nor ends with white space is left alone by `trim()`. */
  lemma TrimKeeps(s: string)
    requires |s| > 0 ==> !IsJsSpace(s[0]) && !IsJsSpace(s[|s| - 1])
    ensures Trim(s) == s
  {
    assert TrimStart(s) == s;
    assert TrimEnd(s) == s;
  }
}
