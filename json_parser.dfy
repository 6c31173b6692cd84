/** `parseJson` (src/utils/jsonParser.ts): the management API reports the
    player list in Python's literal syntax, `['a', 'b']` with `True` and
    `False` for booleans. Two global replacements turn it into JSON text,
    which `JSON.parse` then reads. The parse is modelled only as far as its
    callers tell results apart: an array of strings, a boolean, any other
    value, or a thrown `SyntaxError`. */
module JsonParser {
  import opened Base

  // ---------------------------------------------------------------------
  // Literals, tested character by character.

  predicate TrueAt(s: string, i: int)
  {
    0 <= i && i + 4 <= |s| && s[i] == 'T' && s[i + 1] == 'r' && s[i + 2] == 'u' && s[i + 3] == 'e'
  }

  predicate FalseAt(s: string, i: int)
  {
    0 <= i && i + 5 <= |s| && s[i] == 'F' && s[i + 1] == 'a' && s[i + 2] == 'l'
    && s[i + 3] == 's' && s[i + 4] == 'e'
  }

  /** A Python boolean literal starts at `i`. */
  predicate LiteralAt(s: string, i: int)
  {
    TrueAt(s, i) || FalseAt(s, i)
  }

  predicate HasLiteral(s: string)
  {
    exists i | 0 <= i < |s| :: LiteralAt(s, i)
  }

  /** Letters that a literal continues after (`Tru`, `Fals`). */
  predicate InnerLetter(c: char)
  {
    c == 'T' || c == 'r' || c == 'u' || c == 'F' || c == 'a' || c == 'l' || c == 's'
  }

  /** Letters a literal continues with (`rue`, `alse`). */
  predicate TailLetter(c: char)
  {
    c == 'r' || c == 'u' || c == 'e' || c == 'a' || c == 'l' || c == 's'
  }

  /** No literal can straddle the join of `a` and `b`. */
  predicate Seam(a: string, b: string)
  {
    a == [] || b == [] || !InnerLetter(a[|a| - 1]) || !TailLetter(b[0])
  }

  lemma NoLiteralConcat(a: string, b: string)
    requires !HasLiteral(a) && !HasLiteral(b) && Seam(a, b)
    ensures !HasLiteral(a + b)
  {
    var ab := a + b;
    forall i | 0 <= i < |ab|
      ensures !LiteralAt(ab, i)
    {
      if i >= |a| {
        assert !LiteralAt(b, i - |a|);
        assert TrueAt(ab, i) ==> TrueAt(b, i - |a|);
        assert FalseAt(ab, i) ==> FalseAt(b, i - |a|);
      } else if |b| == 0 {
        assert ab == a;
        assert !LiteralAt(a, i);
      } else {
        assert ab[|a| - 1] == a[|a| - 1] && ab[|a|] == b[0];
        var k := |a| - 1 - i;
        assert TrueAt(ab, i) && k >= 3 ==> TrueAt(a, i);
        assert FalseAt(ab, i) && k >= 4 ==> FalseAt(a, i);
        assert TrueAt(ab, i) && k < 3 ==> InnerLetter(a[|a| - 1]) && TailLetter(b[0]);
        assert FalseAt(ab, i) && k < 4 ==> InnerLetter(a[|a| - 1]) && TailLetter(b[0]);
        assert !LiteralAt(a, i);
        assert !InnerLetter(a[|a| - 1]) || !TailLetter(b[0]);
        assert !TrueAt(ab, i);
        assert !FalseAt(ab, i);
      }
    }
  }

  // ---------------------------------------------------------------------
  // Pass 1: /'/g -> '"'

  function QuotePass(s: string): (r: string)
    ensures |r| == |s|
    ensures forall i :: 0 <= i < |s| ==> r[i] == if s[i] == '\'' then '"' else s[i]
  {
    if s == [] then [] else [if s[0] == '\'' then '"' else s[0]] + QuotePass(s[1..])
  }

  /** The first pass works piecewise. */
  lemma {:induction false} QuotePassAppend(a: string, b: string)
    ensures QuotePass(a + b) == QuotePass(a) + QuotePass(b)
  {
    if a != [] {
      assert (a + b)[1..] == a[1..] + b;
      QuotePassAppend(a[1..], b);
    }
  }

  // ---------------------------------------------------------------------
  // Pass 2, as written: /[^"]?(True)|(False)[^"]?/gm, each match lower-cased.
  // The alternation splits the pattern into `[^"]?True` and `False[^"]?`.

  /** Length of the match the pattern finds at position `p` (0 when it
      finds none there). The first alternative is tried first; its optional
      class is greedy, so one leading non-`"` character is taken when the
      four that follow spell `True`. */
  function MatchLenAsWritten(s: string, p: nat): (n: nat)
    requires p <= |s|
    ensures p + n <= |s|
    ensures n > 0 <==> (LiteralAt(s, p) || (p < |s| && s[p] != '"' && TrueAt(s, p + 1)))
  {
    if p < |s| && s[p] != '"' && TrueAt(s, p + 1) then 5
    else if TrueAt(s, p) then 4
    else if FalseAt(s, p) then (if p + 6 <= |s| && s[p + 5] != '"' then 6 else 5)
    else 0
  }

  /** How far one step of the scan moves: past the match, or past the one
      character where nothing matches. */
  function ScanStep(s: string, p: nat): (m: nat)
    requires p < |s|
    ensures 1 <= m && p + m <= |s|
  {
    var n := MatchLenAsWritten(s, p);
    if n == 0 then 1 else n
  }

  /** The global search walks the text left to right: at each position it
      either finds a match and resumes after it, or finds none and moves on
      by one character. Whether the walk started at `p` puts position `j`
      inside one of its matches. */
  predicate CoveredFrom(s: string, p: nat, j: int)
    requires p <= j < |s|
    decreases j - p
  {
    var m := ScanStep(s, p);
    if j < p + m then MatchLenAsWritten(s, p) > 0 else CoveredFrom(s, p + m, j)
  }

  /** The global replacement, character by character: every character
      inside a match is lower-cased, every other one is kept. */
  function BoolPassAsWritten(s: string): (r: string)
    ensures |r| == |s|
  {
    seq(|s|, j requires 0 <= j < |s| => if CoveredFrom(s, 0, j) then Lower(s[j]) else s[j])
  }

  /** Every literal at or after the start of the walk lies inside a match. */
  lemma {:induction false} LiteralCovered(s: string, p: nat, i: int)
    requires p <= i < |s| && LiteralAt(s, i)
    ensures CoveredFrom(s, p, i)
    decreases i - p
  {
    var m := ScanStep(s, p);
    if i >= p + m {
      LiteralCovered(s, p + m, i);
    } else {
      assert MatchLenAsWritten(s, p) > 0;
    }
  }

  /** Every `True` and `False` of the text is lower-cased where it stands. */
  lemma AsWrittenLowersLiterals(s: string, i: int)
    requires LiteralAt(s, i)
    ensures BoolPassAsWritten(s)[i] == Lower(s[i])
  {
    LiteralCovered(s, 0, i);
  }

  /** So is the character in front of a `True`, unless it is a `"`. */
  lemma {:induction false} BeforeTrueCovered(s: string, p: nat, i: int)
    requires p < i && TrueAt(s, i) && s[i - 1] != '"'
    ensures CoveredFrom(s, p, i - 1)
    decreases i - p
  {
    var m := ScanStep(s, p);
    if i - 1 >= p + m {
      BeforeTrueCovered(s, p + m, i);
    } else {
      assert MatchLenAsWritten(s, p) > 0;
    }
  }

  /** The pattern also lower-cases the character in front of `True`,
      unless that character is a `"`. */
  lemma AsWrittenLowersBeforeTrue(s: string, i: int)
    requires TrueAt(s, i) && i > 0 && s[i - 1] != '"'
    ensures BoolPassAsWritten(s)[i - 1] == Lower(s[i - 1])
  {
    BeforeTrueCovered(s, 0, i);
  }

  /** `FalseY` becomes `falsey`: the character after `False` goes too. */
  lemma AsWrittenLowersAfterFalse()
    ensures BoolPassAsWritten("FalseY") == "falsey"
  {
    var s := "FalseY";
    assert FalseAt(s, 0) && !TrueAt(s, 1) && !TrueAt(s, 0);
    assert MatchLenAsWritten(s, 0) == 6;
    forall j | 0 <= j < 6
      ensures BoolPassAsWritten(s)[j] == "falsey"[j]
    {
      assert CoveredFrom(s, 0, j);
    }
  }

  /** Without literals the walk never finds a match. */
  lemma {:induction false} NothingCovered(s: string, p: nat, j: int)
    requires p <= j < |s| && !HasLiteral(s)
    ensures !CoveredFrom(s, p, j)
    decreases j - p
  {
    assert !LiteralAt(s, p) && !(p + 1 < |s| && LiteralAt(s, p + 1));
    assert MatchLenAsWritten(s, p) == 0;
    if j > p {
      NothingCovered(s, p + 1, j);
    }
  }

  /** Where the text holds no literal the pass changes nothing. */
  lemma AsWrittenFixesLiteralFree(s: string)
    requires !HasLiteral(s)
    ensures BoolPassAsWritten(s) == s
  {
    forall j | 0 <= j < |s|
      ensures BoolPassAsWritten(s)[j] == s[j]
    {
      NothingCovered(s, 0, j);
    }
  }

  /** The extra lower-cased character can complete a new `True`: in
      `TruETrue` the `E` is taken as the character before the second
      `True`, so the first four characters then spell `True`. A literal
      the pass was meant to remove is still there, and applying the pass
      again changes the text a second time. */
  lemma AsWrittenLeavesLiteral()
    ensures !TrueAt("TruETrue", 0)
    ensures TrueAt(BoolPassAsWritten("TruETrue"), 0)
    ensures BoolPassAsWritten(BoolPassAsWritten("TruETrue")) != BoolPassAsWritten("TruETrue")
  {
    var s := "TruETrue";
    assert !TrueAt(s, 0) && !FalseAt(s, 0) && !TrueAt(s, 1) && !FalseAt(s, 1);
    assert !TrueAt(s, 2) && !FalseAt(s, 2) && !TrueAt(s, 3);
    assert MatchLenAsWritten(s, 0) == 0 && MatchLenAsWritten(s, 1) == 0;
    assert MatchLenAsWritten(s, 2) == 0;
    assert s[3] == 'E' && TrueAt(s, 4) && MatchLenAsWritten(s, 3) == 5;
    assert !CoveredFrom(s, 2, 2) && CoveredFrom(s, 2, 3);
    assert !CoveredFrom(s, 1, 1) && CoveredFrom(s, 1, 3);
    assert !CoveredFrom(s, 0, 0) && CoveredFrom(s, 0, 3);
    assert !CoveredFrom(s, 0, 1) && !CoveredFrom(s, 0, 2);
    var r := BoolPassAsWritten(s);
    assert r[0] == 'T' && r[1] == 'r' && r[2] == 'u' && r[3] == 'e';
    AsWrittenLowersLiterals(r, 0);
  }

  // ---------------------------------------------------------------------
  // Pass 2, as intended: every `True` becomes `true`, every `False` `false`.

  /** The replacement the comment beside the pattern asks for: lower-case
      exactly the literals `True` and `False`, nothing around them. Only
      the first letter of a literal is upper-case, so only it changes. */
  function BoolPass(s: string): (r: string)
    ensures |r| == |s|
    decreases |s|
  {
    if s == [] then []
    else
      var n := if TrueAt(s, 0) then 4 else if FalseAt(s, 0) then 5 else 1;
      var head := if n == 1 then [s[0]] else LowerString(s[..n]);
      head + BoolPass(s[n..])
  }

  /** The corrected pass lower-cases the first letter of every literal and
      keeps every other character. */
  lemma {:induction false} BoolPassAt(s: string, i: int)
    requires 0 <= i < |s|
    ensures BoolPass(s)[i] == if LiteralAt(s, i) then Lower(s[i]) else s[i]
    decreases |s|
  {
    var n := if TrueAt(s, 0) then 4 else if FalseAt(s, 0) then 5 else 1;
    var head := if n == 1 then [s[0]] else LowerString(s[..n]);
    var tail := BoolPass(s[n..]);
    assert BoolPass(s) == head + tail;
    if i < n {
      LiteralHead(s, n, head, i);
      assert (head + tail)[i] == head[i];
    } else {
      LiteralShift(s, n, i);
      BoolPassAt(s[n..], i - n);
      assert (head + tail)[i] == tail[i - n];
    }
  }

  /** Within the first step of the corrected pass only a literal's first
      letter changes. */
  lemma LiteralHead(s: string, n: nat, head: string, i: int)
    requires n == (if TrueAt(s, 0) then 4 else if FalseAt(s, 0) then 5 else 1) && n <= |s|
    requires head == if n == 1 then [s[0]] else LowerString(s[..n])
    requires 0 <= i < n
    ensures head[i] == if LiteralAt(s, i) then Lower(s[i]) else s[i]
  {
    if i > 0 {
      assert !LiteralAt(s, i);
    }
  }

  /** Dropping a prefix moves every literal along with it. */
  lemma LiteralShift(s: string, n: nat, i: int)
    requires n <= i < |s|
    ensures LiteralAt(s, i) <==> LiteralAt(s[n..], i - n)
    ensures s[n..][i - n] == s[i]
  {
    assert TrueAt(s, i) <==> TrueAt(s[n..], i - n);
    assert FalseAt(s, i) <==> FalseAt(s[n..], i - n);
  }

  /** After the corrected pass no `True` and no `False` remains. */
  lemma BoolPassNoLiterals(s: string)
    ensures !HasLiteral(BoolPass(s))
  {
    forall i | 0 <= i < |BoolPass(s)|
      ensures !LiteralAt(BoolPass(s), i)
    {
      NoTrueAfterPass(s, i);
      NoFalseAfterPass(s, i);
    }
  }

  lemma NoTrueAfterPass(s: string, i: int)
    requires 0 <= i < |s|
    ensures !TrueAt(BoolPass(s), i)
  {
    if i + 4 <= |s| {
      BoolPassAt(s, i);
      BoolPassAt(s, i + 1);
      BoolPassAt(s, i + 2);
      BoolPassAt(s, i + 3);
    }
  }

  lemma NoFalseAfterPass(s: string, i: int)
    requires 0 <= i < |s|
    ensures !FalseAt(BoolPass(s), i)
  {
    if i + 5 <= |s| {
      BoolPassAt(s, i);
      BoolPassAt(s, i + 1);
      BoolPassAt(s, i + 2);
      BoolPassAt(s, i + 3);
      BoolPassAt(s, i + 4);
    }
  }

  lemma BoolPassFixesLiteralFree(s: string)
    requires !HasLiteral(s)
    ensures BoolPass(s) == s
  {
    forall i | 0 <= i < |s|
      ensures BoolPass(s)[i] == s[i]
    {
      BoolPassAt(s, i);
    }
  }

  /** Applying the corrected pass twice gives what applying it once gives. */
  lemma BoolPassIdempotent(s: string)
    ensures BoolPass(BoolPass(s)) == BoolPass(s)
  {
    BoolPassNoLiterals(s);
    BoolPassFixesLiteralFree(BoolPass(s));
  }

  /** On text without literals the code as written and the corrected pass
      agree: both leave it alone. */
  lemma PassesAgreeWithoutLiterals(s: string)
    requires !HasLiteral(s)
    ensures BoolPassAsWritten(s) == BoolPass(s) == s
  {
    AsWrittenFixesLiteralFree(s);
    BoolPassFixesLiteralFree(s);
  }

  /** The full rewrite `parseJson` feeds to `JSON.parse`: the quote pass,
      then the boolean pass as written. */
  function Rewrite(s: string): (r: string)
    ensures |r| == |s|
  {
    BoolPassAsWritten(QuotePass(s))
  }

  /** The rewrite keeps the length, turns every `'` into `"`, leaves no
      `'` behind, lower-cases the first letter of every literal, and
      otherwise only ever lower-cases a character. */
  lemma RewriteProperties(s: string)
    ensures |Rewrite(s)| == |s|
    ensures forall i :: 0 <= i < |s| ==> Rewrite(s)[i] != '\''
    ensures forall i :: 0 <= i < |s| && s[i] == '\'' ==> Rewrite(s)[i] == '"'
    ensures forall i :: LiteralAt(QuotePass(s), i) ==> Rewrite(s)[i] == Lower(s[i])
    ensures forall i :: 0 <= i < |s| && s[i] != '\'' ==> Rewrite(s)[i] in {s[i], Lower(s[i])}
  {
    forall i | LiteralAt(QuotePass(s), i)
      ensures Rewrite(s)[i] == Lower(s[i])
    {
      AsWrittenLowersLiterals(QuotePass(s), i);
    }
  }

  /** Quotes are rewritten before booleans, so the `"` in front of a
      quoted `True` shields it: `'True'` becomes `"true"`. */
  lemma QuotedTrue()
    ensures Rewrite("'True'") == "\"true\""
  {
    var q := QuotePass("'True'");
    assert q == "\"True\"";
    assert MatchLenAsWritten(q, 0) == 0 && MatchLenAsWritten(q, 1) == 4;
    assert !TrueAt(q, 5) && !FalseAt(q, 5) && MatchLenAsWritten(q, 5) == 0;
    assert CoveredFrom(q, 5, 5) == false;
    forall j | 0 <= j < 6
      ensures Rewrite("'True'")[j] == "\"true\""[j]
    {
      if j > 0 {
        assert CoveredFrom(q, 1, j) == (j < 5);
      }
    }
  }

  /** The full rewrite of `TruETrue` still holds `True`, so applying it a
      second time changes the text again. */
  lemma RewriteLeavesLiteral()
    ensures TrueAt(Rewrite("TruETrue"), 0)
    ensures Rewrite(Rewrite("TruETrue")) != Rewrite("TruETrue")
  {
    var s := "TruETrue";
    assert forall i :: 0 <= i < |s| ==> s[i] != '\'';
    RewriteOfQuoteFree(s);
    RewriteOfQuoteFree(BoolPassAsWritten(s));
    AsWrittenLeavesLiteral();
  }

  /** On text without `'` the rewrite is the boolean pass alone, and its
      result has no `'` either. */
  lemma RewriteOfQuoteFree(s: string)
    requires forall i :: 0 <= i < |s| ==> s[i] != '\''
    ensures Rewrite(s) == BoolPassAsWritten(s)
    ensures forall i :: 0 <= i < |s| ==> BoolPassAsWritten(s)[i] != '\''
  {
    QuoteFree(s);
  }

  /** Text without `'` passes the quote pass unchanged. */
  lemma QuoteFree(s: string)
    requires forall i :: 0 <= i < |s| ==> s[i] != '\''
    ensures QuotePass(s) == s
  {
  }

  /** The rewrite the Finding below asks for: the quote pass, then the
      corrected boolean pass. */
  function IntendedRewrite(s: string): (r: string)
  {
    BoolPass(QuotePass(s))
  }

  /** The intended rewrite keeps its length and holds neither a single
      quote nor a Python literal. */
  lemma IntendedRewriteProperties(s: string)
    ensures |IntendedRewrite(s)| == |s|
    ensures !HasLiteral(IntendedRewrite(s))
    ensures forall i :: 0 <= i < |s| ==> IntendedRewrite(s)[i] != '\''
  {
    BoolPassNoLiterals(QuotePass(s));
    forall i | 0 <= i < |s|
      ensures IntendedRewrite(s)[i] != '\''
    {
      BoolPassAt(QuotePass(s), i);
    }
  }

  /** Applying the intended rewrite twice gives what applying it once gives. */
  lemma IntendedRewriteIdempotent(s: string)
    ensures IntendedRewrite(IntendedRewrite(s)) == IntendedRewrite(s)
  {
    var r := IntendedRewrite(s);
    IntendedRewriteProperties(s);
    QuoteFree(r);
    BoolPassIdempotent(QuotePass(s));
  }

  // ---------------------------------------------------------------------
  // JSON.parse, restricted to the shapes the callers distinguish.

  datatype JsonShape = StringArray(items: seq<string>) | Boolean(b: bool) | OtherValue

  /** `JSON.parse` threw. The source's `T | null` return type has no
      counterpart here: `parseJson` has no null path of its own, and a
      parsed `null` is `OtherValue`. */
  datatype SyntaxError = SyntaxError

  predicate IsWs(c: char)
  {
    c == ' ' || c == '\t' || c == '\n' || c == '\r'
  }

  function SkipWs(s: string): (r: string)
    ensures |r| <= |s|
    ensures r != [] ==> !IsWs(r[0])
  {
    if s != [] && IsWs(s[0]) then SkipWs(s[1..]) else s
  }

  predicate WordTrue(t: string)
  {
    |t| >= 4 && t[0] == 't' && t[1] == 'r' && t[2] == 'u' && t[3] == 'e'
  }

  predicate WordFalse(t: string)
  {
    |t| >= 5 && t[0] == 'f' && t[1] == 'a' && t[2] == 'l' && t[3] == 's' && t[4] == 'e'
  }

  predicate WordNull(t: string)
  {
    |t| >= 4 && t[0] == 'n' && t[1] == 'u' && t[2] == 'l' && t[3] == 'l'
  }

  predicate Leads(t: string, c: char)
  {
    t != [] && t[0] == c
  }

  /** The character a two-character escape stands for; `\u` escapes are
      outside this model. */
  function Unescape(c: char): Option<char>
  {
    match c
    case '"' => Some('"')
    case '\\' => Some('\\')
    case '/' => Some('/')
    case 'b' => Some(8 as char)
    case 'f' => Some(12 as char)
    case 'n' => Some('\n')
    case 'r' => Some('\r')
    case 't' => Some('\t')
    case _ => None
  }

  /** Reads a string literal's body up to the closing quote; returns the
      decoded body and the text after the quote. */
  function ParseStringBody(s: string): (r: Option<(string, string)>)
    ensures r.Some? ==> |r.value.1| < |s|
    decreases |s|
  {
    if s == [] then None
    else if s[0] == '"' then Some(([], s[1..]))
    else if s[0] == '\\' then
      if |s| < 2 then None
      else match Unescape(s[1])
        case None => None
        case Some(c) =>
          match ParseStringBody(s[2..])
          case None => None
          case Some((body, rest)) => Some(([c] + body, rest))
    else if s[0] < ' ' then None
    else
      match ParseStringBody(s[1..])
      case None => None
      case Some((body, rest)) => Some(([s[0]] + body, rest))
  }

  /** After an array element: `]` closes the array, `,` must be followed by
      another string. */
  function ParseArrayTail(s: string, acc: seq<string>): (r: Option<(seq<string>, string)>)
    decreases |s|
  {
    var t := SkipWs(s);
    if Leads(t, ']') then Some((acc, t[1..]))
    else if Leads(t, ',') then
      var u := SkipWs(t[1..]);
      if Leads(u, '"') then
        match ParseStringBody(u[1..])
        case None => None
        case Some((x, rest)) => ParseArrayTail(rest, acc + [x])
      else None
    else None
  }

  /** The text after an opening `[`: an empty array, or strings separated
      by commas. */
  function ParseArray(s: string): (r: Option<(JsonShape, string)>)
  {
    var u := SkipWs(s);
    if Leads(u, ']') then Some((StringArray([]), u[1..]))
    else if Leads(u, '"') then
      match ParseStringBody(u[1..])
      case None => None
      case Some((x, rest)) =>
        match ParseArrayTail(rest, [x])
        case None => None
        case Some((xs, rest')) => Some((StringArray(xs), rest'))
    else None
  }

  function ParseValue(s: string): (r: Option<(JsonShape, string)>)
  {
    var t := SkipWs(s);
    if WordTrue(t) then Some((Boolean(true), t[4..]))
    else if WordFalse(t) then Some((Boolean(false), t[5..]))
    else if WordNull(t) then Some((OtherValue, t[4..]))
    else if Leads(t, '"') then
      match ParseStringBody(t[1..])
      case None => None
      case Some((_, rest)) => Some((OtherValue, rest))
    else if Leads(t, '[') then ParseArray(t[1..])
    else None
  }

  /** One value, surrounded by nothing but white space. */
  function ParseText(s: string): Result<JsonShape, SyntaxError>
  {
    match ParseValue(s)
    case Some((v, rest)) => if SkipWs(rest) == [] then Ok(v) else Err(SyntaxError)
    case None => Err(SyntaxError)
  }

  /** `parseJson(text)`: the rewrite, then the parse. */
  function ParseJson(text: string): Result<JsonShape, SyntaxError>
  {
    ParseText(Rewrite(text))
  }

  /** The parse the Finding below asks for, on the intended rewrite. */
  function IntendedParseJson(text: string): Result<JsonShape, SyntaxError>
  {
    ParseText(IntendedRewrite(text))
  }

  // ---------------------------------------------------------------------
  // What the management API sends, and what comes back out.

  /** Characters Python prints between single quotes and JSON keeps as is. */
  predicate PlainChars(n: string)
  {
    forall i :: 0 <= i < |n| ==> n[i] != '\'' && n[i] != '"' && n[i] != '\\' && n[i] >= ' '
  }

  predicate PlainName(n: string)
  {
    PlainChars(n) && !HasLiteral(n)
  }

  /** `, 'b', 'c']`: the rest of a Python list after its first element. */
  function PyTail(names: seq<string>): string
  {
    if names == [] then "]" else ", '" + (names[0] + "'" + PyTail(names[1..]))
  }

  /** Python's `repr` of a list of strings, e.g. `['a', 'b']`. */
  function PythonList(names: seq<string>): string
  {
    if names == [] then "[]" else "['" + (names[0] + "'" + PyTail(names[1..]))
  }

  function JsonTail(names: seq<string>): string
  {
    if names == [] then "]" else ", \"" + (names[0] + "\"" + JsonTail(names[1..]))
  }

  /** The JSON text of a list of strings, e.g. `["a", "b"]`. */
  function JsonList(names: seq<string>): string
  {
    if names == [] then "[]" else "[\"" + (names[0] + "\"" + JsonTail(names[1..]))
  }

  lemma QuotePassPlain(n: string)
    requires PlainChars(n)
    ensures QuotePass(n) == n
  {
  }

  lemma {:induction false} QuotePassPyTail(names: seq<string>)
    requires forall k :: 0 <= k < |names| ==> PlainName(names[k])
    ensures QuotePass(PyTail(names)) == JsonTail(names)
    ensures !HasLiteral(JsonTail(names))
  {
    if names == [] {
      assert QuotePass("]") == "]";
    } else {
      var n, rest := names[0], PyTail(names[1..]);
      QuotePassPyTail(names[1..]);
      QuoteElement(", '", ", \"", n, rest);
      LiteralFreeElement(", \"", n, JsonTail(names[1..]));
    }
  }

  /** `'n'` after a prefix becomes `"n"`. */
  lemma QuoteElement(p: string, q: string, n: string, rest: string)
    requires PlainChars(n) && QuotePass(p) == q
    ensures QuotePass(p + (n + "'" + rest)) == q + (n + "\"" + QuotePass(rest))
  {
    QuotePassAppend(p, n + "'" + rest);
    QuotePassAppend(n + "'", rest);
    QuotePassAppend(n, "'");
    QuotePassPlain(n);
    assert QuotePass("'") == "\"";
  }

  /** A literal-free name between quotes adds no literal. */
  lemma LiteralFreeElement(p: string, n: string, rest: string)
    requires !HasLiteral(n) && !HasLiteral(rest)
    requires p != [] && p[|p| - 1] == '"' && !HasLiteral(p)
    ensures !HasLiteral(p + (n + "\"" + rest))
  {
    NoLiteralConcat(n, "\"");
    NoLiteralConcat(n + "\"", rest);
    NoLiteralConcat(p, n + "\"" + rest);
  }

  /** The first pass turns Python's list into JSON's, and the second, as
      written or as intended, then has nothing to change. */
  lemma RewritePythonList(names: seq<string>)
    requires forall k :: 0 <= k < |names| ==> PlainName(names[k])
    ensures Rewrite(PythonList(names)) == JsonList(names)
    ensures IntendedRewrite(PythonList(names)) == JsonList(names)
  {
    if names == [] {
      assert QuotePass("[]") == "[]";
    } else {
      var n, rest := names[0], PyTail(names[1..]);
      QuotePassPyTail(names[1..]);
      assert QuotePass("['") == "[\"";
      QuoteElement("['", "[\"", n, rest);
      LiteralFreeElement("[\"", n, JsonTail(names[1..]));
    }
    PassesAgreeWithoutLiterals(JsonList(names));
  }

  lemma {:induction false} ParsePlainString(n: string, rest: string)
    requires PlainChars(n)
    ensures ParseStringBody(n + "\"" + rest) == Some((n, rest))
  {
    var s := n + "\"" + rest;
    if n == [] {
      assert s == "\"" + rest;
    } else {
      assert s[0] == n[0] && s[1..] == n[1..] + "\"" + rest;
      ParsePlainString(n[1..], rest);
      assert [n[0]] + n[1..] == n;
    }
  }

  lemma SkipNoWs(s: string)
    requires s != [] && !IsWs(s[0])
    ensures SkipWs(s) == s
  {
  }

  lemma SkipSpaceQuote(body: string)
    ensures SkipWs(" \"" + body) == "\"" + body
  {
    var u := " \"" + body;
    assert u[1..] == "\"" + body;
    SkipNoWs(u[1..]);
  }

  /** One `, "n"` element of an array: the parser reads `n` and goes on. */
  lemma ParseArrayElement(n: string, after: string, acc: seq<string>)
    requires PlainChars(n)
    ensures ParseArrayTail(", \"" + (n + "\"" + after), acc) == ParseArrayTail(after, acc + [n])
  {
    var body := n + "\"" + after;
    var s := ", \"" + body;
    SkipNoWs(s);
    assert s[1..] == " \"" + body;
    SkipSpaceQuote(body);
    assert ("\"" + body)[1..] == body;
    ParsePlainString(n, after);
  }

  /** `]` closes the array with the elements read so far. */
  lemma ParseArrayEnd(acc: seq<string>)
    ensures ParseArrayTail("]", acc) == Some((acc, ""))
  {
    SkipNoWs("]");
    assert "]"[1..] == "";
  }

  lemma HeadTail<T>(xs: seq<T>)
    requires xs != []
    ensures [xs[0]] + xs[1..] == xs
  {
  }

  lemma AppendHead<T>(acc: seq<T>, xs: seq<T>)
    requires xs != []
    ensures acc + [xs[0]] + xs[1..] == acc + xs
  {
    HeadTail(xs);
  }

  lemma {:induction false} ParseJsonTail(names: seq<string>, acc: seq<string>)
    requires forall k :: 0 <= k < |names| ==> PlainChars(names[k])
    ensures ParseArrayTail(JsonTail(names), acc) == Some((acc + names, ""))
  {
    if names == [] {
      ParseArrayEnd(acc);
      assert acc + names == acc;
    } else {
      ParseArrayElement(names[0], JsonTail(names[1..]), acc);
      ParseJsonTail(names[1..], acc + [names[0]]);
      AppendHead(acc, names);
    }
  }

  /** The JSON text of a list of strings parses back to that list. */
  lemma ParseJsonList(names: seq<string>)
    requires forall k :: 0 <= k < |names| ==> PlainChars(names[k])
    ensures ParseText(JsonList(names)) == Ok(StringArray(names))
  {
    var s := JsonList(names);
    ParseOpenBracket(s[1..]);
    assert "[" + s[1..] == s;
    if names == [] {
      ParseEmptyArray();
    } else {
      var n, after := names[0], JsonTail(names[1..]);
      assert s[1..] == "\"" + (n + "\"" + after);
      ParseJsonTail(names[1..], [n]);
      HeadTail(names);
      ParseFirstElement(n, after, names, "");
    }
    assert SkipWs("") == "";
  }

  lemma ParseOpenBracket(body: string)
    ensures ParseValue("[" + body) == ParseArray(body)
  {
    var s := "[" + body;
    SkipNoWs(s);
    assert s[1..] == body;
  }

  lemma ParseEmptyArray()
    ensures ParseArray("]") == Some((StringArray([]), ""))
  {
    SkipNoWs("]");
    assert "]"[1..] == [];
  }

  /** `"n"` followed by the rest of an array: the value is what the rest
      of the array gives. */
  lemma ParseFirstElement(n: string, after: string, xs: seq<string>, rest: string)
    requires PlainChars(n) && ParseArrayTail(after, [n]) == Some((xs, rest))
    ensures ParseArray("\"" + (n + "\"" + after)) == Some((StringArray(xs), rest))
  {
    var body := n + "\"" + after;
    var s := "\"" + body;
    SkipNoWs(s);
    assert s[1..] == body;
    ParsePlainString(n, after);
  }

  lemma ParseFirstElementFails(n: string, after: string)
    requires PlainChars(n) && ParseArrayTail(after, [n]) == None
    ensures ParseArray("\"" + (n + "\"" + after)) == None
  {
    var body := n + "\"" + after;
    var s := "\"" + body;
    SkipNoWs(s);
    assert s[1..] == body;
    ParsePlainString(n, after);
  }

  /** What the API sends for a list of players reads back as that list. */
  lemma PythonListRoundTrip(names: seq<string>)
    requires forall k :: 0 <= k < |names| ==> PlainName(names[k])
    ensures ParseJson(PythonList(names)) == Ok(StringArray(names))
    ensures IntendedParseJson(PythonList(names)) == Ok(StringArray(names))
  {
    RewritePythonList(names);
    ParseJsonList(names);
  }

  /** A text that is one match of the pattern from end to end is
      lower-cased whole. */
  lemma WholeMatchLowered(s: string)
    requires |s| > 0 && MatchLenAsWritten(s, 0) == |s|
    ensures BoolPassAsWritten(s) == LowerString(s)
  {
    forall j | 0 <= j < |s|
      ensures BoolPassAsWritten(s)[j] == LowerString(s)[j]
    {
      assert CoveredFrom(s, 0, j);
    }
  }

  /** `True` on its own is one match of the pattern, lower-cased whole. */
  lemma RewriteTrue()
    ensures Rewrite("True") == "true"
  {
    QuotePassPlain("True");
    assert TrueAt("True", 0) && MatchLenAsWritten("True", 0) == 4;
    WholeMatchLowered("True");
    LowerTrue();
  }

  lemma LowerTrue()
    ensures LowerString("True") == "true"
  {
    var l := LowerString("True");
    assert l[0] == 't' && l[1] == 'r' && l[2] == 'u' && l[3] == 'e';
  }

  /** So is `False`. */
  lemma RewriteFalse()
    ensures Rewrite("False") == "false"
  {
    QuotePassPlain("False");
    assert FalseAt("False", 0) && MatchLenAsWritten("False", 0) == 5;
    WholeMatchLowered("False");
    LowerFalse();
  }

  lemma LowerFalse()
    ensures LowerString("False") == "false"
  {
    var l := LowerString("False");
    assert l[0] == 'f' && l[1] == 'a' && l[2] == 'l' && l[3] == 's' && l[4] == 'e';
  }

  /** Python's booleans read back as JSON booleans. */
  lemma BooleansRoundTrip()
    ensures ParseJson("True") == Ok(Boolean(true))
    ensures ParseJson("False") == Ok(Boolean(false))
  {
    RewriteTrue();
    var t := "true";
    assert WordTrue(t);
    SkipNoWs(t);
    assert t[4..] == [] && SkipWs([]) == [];
    assert ParseValue(t) == Some((Boolean(true), []));
    RewriteFalse();
    var f := "false";
    assert !WordTrue(f) && WordFalse(f);
    SkipNoWs(f);
    assert f[5..] == [];
    assert ParseValue(f) == Some((Boolean(false), []));
  }

  /** A list cut short is not valid JSON: `JSON.parse` throws. */
  lemma TruncatedListThrows()
    ensures ParseJson("['a'").Err?
  {
    assert QuotePass("['a'") == "[\"a\"";
    assert !HasLiteral("[\"a\"");
    AsWrittenFixesLiteralFree("[\"a\"");
    var body := "\"" + ("a" + "\"" + "");
    assert Rewrite("['a'") == "[" + body;
    ParseOpenBracket(body);
    assert SkipWs("") == "";
    ParseFirstElementFails("a", "");
  }
}
