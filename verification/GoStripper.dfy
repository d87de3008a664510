/** Stripping comments and literals from Go source, against a token grammar. */
module GoStripper {

  /** What Go source is made of, as far as a symbol search cares. */
  datatype Token =
    | Code(c: char)
    | LineComment(text: string)
    | BlockComment(text: string, closed: bool)
    | RawString(text: string, closed: bool)
    | Quoted(delimiter: char, text: string, closed: bool)

  function Text(t: Token): string {
    match t
    case Code(c) => [c]
    case LineComment(text) => "//" + text
    case BlockComment(text, closed) => "/*" + text + if closed then "*/" else ""
    case RawString(text, closed) => "`" + text + if closed then "`" else ""
    case Quoted(d, text, closed) => [d] + text + if closed then [d] else ""
  }

  /** A quoted body: escapes are two characters, anything else is not the delimiter. */
  predicate QuotedText(text: string, d: char) {
    if text == "" then true
    else if text[0] == '\\' then |text| >= 2 && QuotedText(text[2..], d)
    else text[0] != d && QuotedText(text[1..], d)
  }

  /** How many backslashes stand directly before position `i`. */
  function Backslashes(text: string, i: nat): nat
    requires i <= |text|
  {
    if i == 0 || text[i - 1] != '\\' then 0 else 1 + Backslashes(text, i - 1)
  }

  lemma {:induction false} BackslashesAfter(head: string, tail: string, i: nat)
    requires i <= |tail|
    ensures Backslashes(head + tail, |head| + i)
         == Backslashes(tail, i) + if Backslashes(tail, i) == i then Backslashes(head, |head|) else 0
  {
    if i == 0 {
      SameBackslashes(head, tail, |head|);
    } else {
      BackslashesAfter(head, tail, i - 1);
      BackslashesBound(tail, i - 1);
    }
  }

  lemma {:induction false} SameBackslashes(head: string, tail: string, i: nat)
    requires i <= |head|
    ensures Backslashes(head + tail, i) == Backslashes(head, i)
  {
    if i > 0 {
      SameBackslashes(head, tail, i - 1);
    }
  }

  lemma {:induction false} BackslashesBound(text: string, i: nat)
    requires i <= |text|
    ensures Backslashes(text, i) <= i
  {
    if i > 0 {
      BackslashesBound(text, i - 1);
    }
  }

  /** A quoted body, position by position: a delimiter in it is escaped by an odd run of backslashes, and
      the run that ends it leaves the closing delimiter free. */
  ghost predicate IsBody(text: string, d: char) {
    && (forall i | 0 <= i < |text| && text[i] == d :: Backslashes(text, i) % 2 == 1)
    && Backslashes(text, |text|) % 2 == 0
  }

  lemma {:induction false} QuotedTextMeans(text: string, d: char)
    requires d != '\\'
    ensures QuotedText(text, d) <==> IsBody(text, d)
  {
    if text != "" && (text[0] != '\\' || |text| >= 2) {
      var n := if text[0] == '\\' then 2 else 1;
      QuotedTextMeans(text[n..], d);
      DropUnit(text, d, n);
    } else if text != "" {
      assert Backslashes(text, 0) == 0 && Backslashes(text, 1) == 1;
    }
  }

  lemma DropUnit(text: string, d: char, n: nat)
    requires text != "" && d != '\\' && n == (if text[0] == '\\' then 2 else 1) && n <= |text|
    ensures IsBody(text, d) <==> IsBody(text[n..], d) && (n == 1 ==> text[0] != d)
  {
    var head, tail := text[..n], text[n..];
    assert text == head + tail;
    assert Backslashes(text, 0) == 0 && (n == 2 ==> Backslashes(text, 1) == 1);
    assert Backslashes(head, 0) == 0 && Backslashes(head, 1) == n - 1;
    assert Backslashes(head, n) == 0 || Backslashes(head, n) == 2;
    forall i | 0 <= i <= |tail|
      ensures Backslashes(text, n + i) % 2 == Backslashes(tail, i) % 2
    {
      BackslashesAfter(head, tail, i);
    }
    SameParity(text, d, n);
  }

  lemma SameParity(text: string, d: char, n: nat)
    requires text != "" && d != '\\' && n == (if text[0] == '\\' then 2 else 1) && n <= |text|
    requires Backslashes(text, 0) == 0 && (n == 2 ==> Backslashes(text, 1) == 1)
    requires forall i | 0 <= i <= |text| - n :: Backslashes(text, n + i) % 2 == Backslashes(text[n..], i) % 2
    ensures IsBody(text, d) <==> IsBody(text[n..], d) && (n == 1 ==> text[0] != d)
  {
    hide Backslashes;
    var tail := text[n..];
    if IsBody(text, d) {
      forall i | 0 <= i < |tail| && tail[i] == d
        ensures Backslashes(tail, i) % 2 == 1
      {
        assert text[n + i] == d;
      }
    } else if IsBody(tail, d) && (n == 1 ==> text[0] != d) {
      forall i | 0 <= i < |text| && text[i] == d
        ensures Backslashes(text, i) % 2 == 1
      {
        if i >= n {
          assert tail[i - n] == d && Backslashes(text, n + (i - n)) % 2 == 1;
        }
      }
    }
  }

  /** A body that the end of the source cuts off, possibly after a backslash. */
  predicate CutText(text: string, d: char) {
    QuotedText(text, d) || (text != "" && text[|text| - 1] == '\\' && QuotedText(text[..|text| - 1], d))
  }

  predicate ClosesAt(s: string, i: int) {
    0 <= i && i + 1 < |s| && s[i] == '*' && s[i + 1] == '/'
  }

  predicate StartsCommentAt(s: string, i: int) {
    0 <= i && i + 1 < |s| && s[i] == '/' && (s[i + 1] == '/' || s[i + 1] == '*')
  }

  predicate Opens(c: char) {
    c == '`' || c == '"' || c == '\''
  }

  /** The token is a whole token when `rest` follows it.  Only the end of the source leaves one open. */
  predicate WellFormed(t: Token, rest: string) {
    match t
    case Code(c) => !Opens(c) && !StartsCommentAt([c] + rest, 0)
    case LineComment(text) => '\n' !in text && (rest == "" || rest[0] == '\n')
    case BlockComment(text, closed) =>
      if closed then forall i | 0 <= i < |text| :: !ClosesAt(text + "*/", i)
      else rest == "" && forall i | 0 <= i < |text| :: !ClosesAt(text, i)
    case RawString(text, closed) => '`' !in text && (closed || rest == "")
    case Quoted(d, text, closed) =>
      && (d == '"' || d == '\'')
      && if closed then QuotedText(text, d) else rest == "" && CutText(text, d)
  }

  /** `source[start..end]` is the token `t`, whole. */
  predicate Whole(source: string, start: nat, end: nat, t: Token)
    requires start <= end <= |source|
  {
    source[start..end] == Text(t) && WellFormed(t, source[end..])
  }

  /** `tokens` are the tokens of the source from `start` on. */
  predicate Lexes(source: string, start: nat, tokens: seq<Token>)
    requires start <= |source|
    decreases tokens
  {
    if tokens == [] then start == |source|
    else
      var end := start + |Text(tokens[0])|;
      end <= |source| && Whole(source, start, end, tokens[0]) && Lexes(source, end, tokens[1..])
  }

  /** `tokens` are the tokens of the first `end` characters. */
  predicate Scanned(source: string, tokens: seq<Token>, end: nat)
    requires end <= |source|
  {
    if tokens == [] then end == 0
    else
      var last := tokens[|tokens| - 1];
      && |Text(last)| <= end
      && Whole(source, end - |Text(last)|, end, last)
      && Scanned(source, tokens[..|tokens| - 1], end - |Text(last)|)
  }

  function Image(t: Token): char {
    match t
    case Code(c) => c
    case LineComment(_) => '\n'
    case _ => ' '
  }

  function Images(tokens: seq<Token>): (r: string)
    ensures |r| == |tokens| && forall i | 0 <= i < |tokens| :: r[i] == Image(tokens[i])
  {
    seq(|tokens|, i requires 0 <= i < |tokens| => Image(tokens[i]))
  }

  // ---------- the scanner ----------

  method Strip(source: string) returns (output: string)
    ensures exists tokens :: Lexes(source, 0, tokens) && output == Images(tokens)
    ensures OnlyCode(output)
  {
    hide WellFormed, Text, OnlyCode;
    output := "";
    ghost var tokens: seq<Token> := [];
    var index := 0;
    while index < |source|
      invariant index <= |source| && Scanned(source, tokens, index) && output == Images(tokens)
    {
      var current := source[index];
      ghost var token;
      var next: nat;
      if StartsCommentAt(source, index) && source[index + 1] == '/' {
        next, token := SkipLine(source, index);
        output := output + "\n";
      } else if StartsCommentAt(source, index) {
        next, token := SkipBlock(source, index);
        output := output + " ";
      } else if current == '`' {
        next, token := SkipRaw(source, index);
        output := output + " ";
      } else if current == '"' || current == '\'' {
        next, token := SkipQuoted(source, index);
        output := output + " ";
      } else {
        next, token := index + 1, Code(current);
        CodeIsWellFormed(source, index);
        output := output + [current];
      }
      OneMoreToken(source, tokens, index, token, next);
      tokens, index := tokens + [token], next;
    }
    ScannedLexes(source, tokens, [], |source|);
    assert tokens + [] == tokens;
    OutputIsClean(source, 0, tokens);
    CleanIsOnlyCode(output);
  }

  method SkipLine(source: string, start: nat) returns (end: nat, ghost token: Token)
    requires StartsCommentAt(source, start) && source[start + 1] == '/'
    ensures start < end <= |source| && Whole(source, start, end, token) && Image(token) == '\n'
  {
    end := start + 2;
    while end < |source| && source[end] != '\n'
      invariant start + 2 <= end <= |source| && '\n' !in source[start + 2..end]
    {
      end := end + 1;
    }
    token := LineComment(source[start + 2..end]);
    assert source[start..end] == source[start..start + 2] + source[start + 2..end];
  }

  method SkipBlock(source: string, start: nat) returns (end: nat, ghost token: Token)
    requires StartsCommentAt(source, start) && source[start + 1] == '*'
    ensures start < end <= |source| && Whole(source, start, end, token) && Image(token) == ' '
  {
    var index := start + 2;
    while index + 1 < |source| && source[index..index + 2] != "*/"
      invariant start + 2 <= index <= |source|
      invariant forall i | start + 2 <= i < index :: !ClosesAt(source, i)
    {
      index := index + 1;
    }
    end := if index + 2 < |source| then index + 2 else |source|;
    if index + 1 < |source| {
      token := BlockComment(source[start + 2..index], true);
      BlockCloses(source, start, index);
    } else {
      token := BlockComment(source[start + 2..], false);
      BlockRunsOut(source, start);
    }
  }

  lemma BlockCloses(source: string, start: nat, index: nat)
    requires StartsCommentAt(source, start) && source[start + 1] == '*' && start + 2 <= index && ClosesAt(source, index)
    requires forall i | start + 2 <= i < index :: !ClosesAt(source, i)
    ensures Whole(source, start, index + 2, BlockComment(source[start + 2..index], true))
  {
    var text := source[start + 2..index];
    assert source[start..index + 2] == "/*" + text + "*/";
    forall i | 0 <= i < |text|
      ensures !ClosesAt(text + "*/", i)
    {
      assert !ClosesAt(source, start + 2 + i);
    }
  }

  lemma BlockRunsOut(source: string, start: nat)
    requires StartsCommentAt(source, start) && source[start + 1] == '*'
    requires forall i | start + 2 <= i < |source| :: !ClosesAt(source, i)
    ensures Whole(source, start, |source|, BlockComment(source[start + 2..], false))
  {
    var text := source[start + 2..];
    assert source[start..] == "/*" + text + "";
    forall i | 0 <= i < |text|
      ensures !ClosesAt(text, i)
    {
      assert !ClosesAt(source, start + 2 + i);
    }
  }

  method SkipRaw(source: string, start: nat) returns (end: nat, ghost token: Token)
    requires start < |source| && source[start] == '`'
    ensures start < end <= |source| && Whole(source, start, end, token) && Image(token) == ' '
  {
    var index := start + 1;
    while index < |source| && source[index] != '`'
      invariant start + 1 <= index <= |source| && '`' !in source[start + 1..index]
    {
      index := index + 1;
    }
    token := RawString(source[start + 1..index], index < |source|);
    end := if index + 1 < |source| then index + 1 else |source|;
    assert source[start..start + 1] == "`";
    JoinSlices(source, start, start + 1, index);
    if index < |source| {
      assert source[index..index + 1] == "`";
      JoinSlices(source, start, index, index + 1);
    } else {
      assert source[start..end] == "`" + source[start + 1..index] + "";
    }
  }

  method SkipQuoted(source: string, start: nat) returns (end: nat, ghost token: Token)
    requires start < |source| && (source[start] == '"' || source[start] == '\'')
    ensures start < end <= |source| && Whole(source, start, end, token) && Image(token) == ' '
  {
    hide QuotedText, Whole;
    var delimiter := source[start];
    var index := start + 1;
    NothingQuoted(delimiter);
    assert source[start + 1..index] == "";
    while index < |source|
      invariant start + 1 <= index <= |source| && QuotedText(source[start + 1..index], delimiter)
    {
      if source[index] == '\\' {
        if index + 1 == |source| {
          QuotedEscapesTheEnd(source, start);
          token := Quoted(delimiter, source[start + 1..], false);
          return |source|, token;
        }
        QuotedGrows(source[start + 1..index], source[index..index + 2], delimiter);
        JoinSlices(source, start + 1, index, index + 2);
        index := index + 2;
        continue;
      }
      if source[index] == delimiter {
        QuotedCloses(source, start, index);
        token := Quoted(delimiter, source[start + 1..index], true);
        return index + 1, token;
      }
      QuotedGrows(source[start + 1..index], [source[index]], delimiter);
      JoinSlices(source, start + 1, index, index + 1);
      assert source[index..index + 1] == [source[index]];
      index := index + 1;
    }
    QuotedRunsOut(source, start);
    token := Quoted(delimiter, source[start + 1..], false);
    assert source[start + 1..index] == source[start + 1..];
    end := index;
  }

  lemma JoinSlices(s: string, a: nat, b: nat, c: nat)
    requires a <= b <= c <= |s|
    ensures s[a..b] + s[b..c] == s[a..c]
  {
  }

  lemma NothingQuoted(d: char)
    ensures QuotedText("", d)
  {
  }

  lemma QuotedCloses(source: string, start: nat, index: nat)
    requires start < index < |source| && (source[start] == '"' || source[start] == '\'') && source[index] == source[start]
    requires QuotedText(source[start + 1..index], source[start])
    ensures Whole(source, start, index + 1, Quoted(source[start], source[start + 1..index], true))
  {
    assert source[start..index + 1] == [source[start]] + source[start + 1..index] + [source[start]];
  }

  lemma QuotedRunsOut(source: string, start: nat)
    requires start < |source| && (source[start] == '"' || source[start] == '\'')
    requires QuotedText(source[start + 1..|source|], source[start])
    ensures Whole(source, start, |source|, Quoted(source[start], source[start + 1..], false))
  {
    assert source[start + 1..|source|] == source[start + 1..];
    assert source[start..] == [source[start]] + source[start + 1..] + "";
  }

  lemma QuotedEscapesTheEnd(source: string, start: nat)
    requires start + 1 < |source| && (source[start] == '"' || source[start] == '\'') && source[|source| - 1] == '\\'
    requires QuotedText(source[start + 1..|source| - 1], source[start])
    ensures Whole(source, start, |source|, Quoted(source[start], source[start + 1..], false))
  {
    var text := source[start + 1..];
    assert text[..|text| - 1] == source[start + 1..|source| - 1];
    assert source[start..] == [source[start]] + text + "";
  }

  lemma CodeIsWellFormed(source: string, index: nat)
    requires index < |source| && !Opens(source[index]) && !StartsCommentAt(source, index)
    ensures Whole(source, index, index + 1, Code(source[index])) && Image(Code(source[index])) == source[index]
  {
    assert [source[index]] + source[index + 1..] == source[index..];
  }

  lemma OneMoreToken(source: string, tokens: seq<Token>, start: nat, t: Token, end: nat)
    requires start <= end <= |source| && Scanned(source, tokens, start) && Whole(source, start, end, t)
    ensures Scanned(source, tokens + [t], end)
    ensures Images(tokens + [t]) == Images(tokens) + [Image(t)]
  {
    hide WellFormed, Text;
    assert (tokens + [t])[..|tokens|] == tokens;
  }

  lemma {:induction false} ScannedLexes(source: string, tokens: seq<Token>, more: seq<Token>, end: nat)
    requires end <= |source| && Scanned(source, tokens, end) && Lexes(source, end, more)
    ensures Lexes(source, 0, tokens + more)
  {
    hide Whole, Text;
    if tokens == [] {
      assert tokens + more == more;
    } else {
      var front, last := tokens[..|tokens| - 1], tokens[|tokens| - 1];
      assert ([last] + more)[1..] == more;
      ScannedLexes(source, front, [last] + more, end - |Text(last)|);
      assert tokens + more == front + ([last] + more);
    }
  }

  lemma {:induction false} QuotedGrows(text: string, more: string, d: char)
    requires QuotedText(text, d)
    requires (|more| == 2 && more[0] == '\\') || (|more| == 1 && more[0] != '\\' && more[0] != d)
    ensures QuotedText(text + more, d)
  {
    if text == "" {
      assert text + more == more;
      assert |more| == 2 ==> more[2..] == "";
    } else if text[0] == '\\' {
      QuotedGrows(text[2..], more, d);
      assert (text + more)[2..] == text[2..] + more;
    } else {
      QuotedGrows(text[1..], more, d);
      assert (text + more)[1..] == text[1..] + more;
    }
  }

  // ---------- the grammar is unambiguous ----------

  /** `s` begins with the whole token `t`. */
  predicate Starts(s: string, t: Token) {
    |Text(t)| <= |s| && s[..|Text(t)|] == Text(t) && WellFormed(t, s[|Text(t)|..])
  }

  lemma SameKind(s: string, a: Token, b: Token)
    requires Starts(s, a) && Starts(s, b)
    ensures a.Code? == b.Code? && a.LineComment? == b.LineComment? && a.BlockComment? == b.BlockComment?
    ensures a.RawString? == b.RawString? && a.Quoted? == b.Quoted?
    ensures a.Code? ==> a == b
    ensures a.Quoted? ==> a.delimiter == b.delimiter
  {
    FirstChars(s, a);
    FirstChars(s, b);
  }

  /** The first two characters tell what kind of token follows. */
  lemma FirstChars(s: string, t: Token)
    requires Starts(s, t)
    ensures s != "" && |Text(t)| >= 1
    ensures t.Code? <==> !Opens(s[0]) && !StartsCommentAt(s, 0)
    ensures t.Code? ==> t == Code(s[0])
    ensures t.LineComment? <==> StartsCommentAt(s, 0) && s[1] == '/'
    ensures t.BlockComment? <==> StartsCommentAt(s, 0) && s[1] == '*'
    ensures t.RawString? <==> s[0] == '`'
    ensures t.Quoted? <==> s[0] == '"' || s[0] == '\''
    ensures t.Quoted? ==> t.delimiter == s[0]
  {
    var text, rest := Text(t), s[|Text(t)|..];
    assert s == text + rest;
    assert text[0] == s[0];
    match t
    case Code(c) =>
      assert [c] + rest == s;
    case LineComment(x) =>
      assert text[1] == s[1];
    case BlockComment(x, closed) =>
      assert text[1] == s[1];
    case RawString(x, closed) =>
    case Quoted(d, x, closed) =>
  }

  /** Where the body of a token ends, said about the source. */
  lemma BodyEnds(s: string, t: Token)
    requires Starts(s, t)
    ensures t.LineComment? ==>
              && |t.text| + 2 <= |s| && t.text == s[2..2 + |t.text|]
              && (forall i | 2 <= i < 2 + |t.text| :: s[i] != '\n')
              && (|t.text| + 2 == |s| || s[|t.text| + 2] == '\n')
    ensures t.RawString? ==>
              && |t.text| + 1 <= |s| && t.text == s[1..1 + |t.text|]
              && (forall i | 1 <= i < 1 + |t.text| :: s[i] != '`')
              && if t.closed then |t.text| + 1 < |s| && s[|t.text| + 1] == '`' else |t.text| + 1 == |s|
  {
    var text, rest := Text(t), s[|Text(t)|..];
    assert s == text + rest;
    if t.LineComment? {
      assert forall i | 0 <= i < |t.text| :: s[i + 2] == t.text[i];
    } else if t.RawString? {
      assert forall i | 0 <= i < |t.text| :: s[i + 1] == t.text[i];
    }
  }

  lemma BlockEnds(s: string, t: Token)
    requires Starts(s, t) && t.BlockComment?
    ensures |t.text| + 2 <= |s| && t.text == s[2..2 + |t.text|]
    ensures forall i | 2 <= i < 2 + |t.text| :: !ClosesAt(s, i)
    ensures if t.closed then ClosesAt(s, 2 + |t.text|) else |t.text| + 2 == |s|
  {
    var text, rest := Text(t), s[|Text(t)|..];
    var body := t.text + if t.closed then "*/" else "";
    assert s == text + rest && text == "/*" + body;
    assert forall i | 0 <= i < |body| :: s[i + 2] == body[i];
    assert t.closed ==> body[|t.text|] == '*' && body[|t.text| + 1] == '/';
    assert !t.closed ==> body == t.text;
    forall i | 2 <= i < 2 + |t.text|
      ensures !ClosesAt(s, i)
    {
      assert !ClosesAt(body, i - 2);
    }
  }

  lemma QuoteEnds(s: string, t: Token)
    requires Starts(s, t) && t.Quoted?
    ensures |t.text| + 1 <= |s| && t.text == s[1..1 + |t.text|] && t.delimiter != '\\'
    ensures CutText(t.text, t.delimiter)
    ensures if t.closed then QuotedText(t.text, t.delimiter) && |t.text| + 1 < |s| && s[|t.text| + 1] == t.delimiter
            else |t.text| + 1 == |s|
  {
    var text, rest := Text(t), s[|Text(t)|..];
    assert s == text + rest;
    assert forall i | 0 <= i < |t.text| :: s[i + 1] == t.text[i];
  }

  /** A quoted body cannot go on past its delimiter. */
  lemma {:induction false} QuotedStops(text: string, longer: string, d: char)
    requires QuotedText(text, d) && |text| < |longer| && longer[..|text|] == text && longer[|text|] == d && d != '\\'
    ensures !QuotedText(longer, d)
  {
    if text != "" {
      var n := if text[0] == '\\' then 2 else 1;
      assert text[0] == longer[0];
      assert longer[n..][..|text| - n] == text[n..];
      QuotedStops(text[n..], longer[n..], d);
    }
  }

  lemma CutStops(text: string, longer: string, d: char)
    requires QuotedText(text, d) && |text| < |longer| && longer[..|text|] == text && longer[|text|] == d && d != '\\'
    ensures !CutText(longer, d)
  {
    QuotedStops(text, longer, d);
    if |text| < |longer| - 1 {
      assert longer[..|longer| - 1][..|text|] == text;
      QuotedStops(text, longer[..|longer| - 1], d);
    }
  }

  lemma QuoteNotLonger(s: string, a: Token, b: Token)
    requires Starts(s, a) && Starts(s, b) && a.Quoted? && b.Quoted? && a.delimiter == b.delimiter
    ensures |b.text| <= |a.text|
  {
    QuoteEnds(s, a);
    QuoteEnds(s, b);
    if a.closed && |a.text| < |b.text| {
      assert s[1..1 + |b.text|][..|a.text|] == s[1..1 + |a.text|];
      CutStops(a.text, b.text, a.delimiter);
    }
  }

  /** Where a source begins with two whole tokens, they are the same. */
  lemma TokenIsUnique(s: string, a: Token, b: Token)
    requires Starts(s, a) && Starts(s, b)
    ensures a == b
  {
    hide Starts, CutText, QuotedText;
    SameKind(s, a, b);
    if a.LineComment? || a.RawString? {
      BodyEnds(s, a);
      BodyEnds(s, b);
    } else if a.BlockComment? {
      BlockEnds(s, a);
      BlockEnds(s, b);
    } else if a.Quoted? {
      QuoteNotLonger(s, a, b);
      QuoteNotLonger(s, b, a);
      QuoteEnds(s, a);
      QuoteEnds(s, b);
    }
  }

  lemma WholeStarts(source: string, start: nat, t: Token)
    requires start + |Text(t)| <= |source| && Whole(source, start, start + |Text(t)|, t)
    ensures Starts(source[start..], t) && |Text(t)| >= 1
  {
    assert source[start..][..|Text(t)|] == source[start..start + |Text(t)|];
    assert source[start..][|Text(t)|..] == source[start + |Text(t)|..];
  }

  /** Every source has at most one token sequence: the scanner computes the only reading there is. */
  lemma {:induction false} LexingIsUnique(source: string, start: nat, a: seq<Token>, b: seq<Token>)
    requires start <= |source| && Lexes(source, start, a) && Lexes(source, start, b)
    ensures a == b
    decreases |source| - start
  {
    hide Text, Whole, Starts;
    if a != [] {
      WholeStarts(source, start, a[0]);
    }
    if b != [] {
      WholeStarts(source, start, b[0]);
    }
    if a != [] && b != [] {
      TokenIsUnique(source[start..], a[0], b[0]);
      LexingIsUnique(source, start + |Text(a[0])|, a[1..], b[1..]);
      assert a == [a[0]] + a[1..] && b == [b[0]] + b[1..];
    }
  }

  // ---------- what the output is good for ----------

  ghost predicate Clean(s: string) {
    forall i | 0 <= i < |s| :: !Opens(s[i]) && !StartsCommentAt(s, i)
  }

  /** No character of a literal or comment delimiter is left: no quote of any kind, and no slash before
      another slash or a star. */
  ghost predicate OnlyCode(s: string) {
    && (forall c | c in s :: c != '"' && c != '\'' && c != '`')
    && forall i | 0 <= i < |s| - 1 && s[i] == '/' :: s[i + 1] != '/' && s[i + 1] != '*'
  }

  lemma CleanIsOnlyCode(s: string)
    ensures Clean(s) <==> OnlyCode(s)
  {
    if Clean(s) {
      forall i | 0 <= i < |s| - 1 && s[i] == '/'
        ensures s[i + 1] != '/' && s[i + 1] != '*'
      {
        assert !StartsCommentAt(s, i);
      }
    }
    if OnlyCode(s) {
      forall i | 0 <= i < |s|
        ensures !Opens(s[i]) && !StartsCommentAt(s, i)
      {
        assert s[i] in s;
      }
    }
  }

  /** What the image of a token tells about the source at its place. */
  lemma ImageAt(source: string, start: nat, t: Token)
    requires start + |Text(t)| <= |source| && Whole(source, start, start + |Text(t)|, t)
    ensures start < |source| && !Opens(Image(t))
    ensures Image(t) !in {' ', '\n'} ==> t == Code(source[start]) && !StartsCommentAt(source, start)
  {
    WholeStarts(source, start, t);
    FirstChars(source[start..], t);
  }

  /** Nothing in the output starts a literal or a comment. */
  lemma {:induction false} OutputIsClean(source: string, start: nat, tokens: seq<Token>)
    requires start <= |source| && Lexes(source, start, tokens)
    ensures Clean(Images(tokens))
    decreases tokens
  {
    hide Text, Whole, Images, Opens;
    if tokens == [] {
      assert Images(tokens) == "";
    } else {
      var end := start + |Text(tokens[0])|;
      OutputIsClean(source, end, tokens[1..]);
      ImageAt(source, start, tokens[0]);
      if |tokens| > 1 {
        ImageAt(source, end, tokens[1]);
      }
      CodeIsOneChar(tokens[0]);
      OneMoreImage(tokens);
      CleanGrows(Image(tokens[0]), Images(tokens[1..]));
    }
  }

  lemma OneMoreImage(tokens: seq<Token>)
    requires tokens != []
    ensures Images(tokens) == [Image(tokens[0])] + Images(tokens[1..])
  {
  }

  lemma CleanGrows(c: char, s: string)
    requires !Opens(c) && Clean(s) && (s != "" ==> !StartsCommentAt([c, s[0]], 0))
    ensures Clean([c] + s)
  {
    var t := [c] + s;
    forall i | 0 <= i < |t|
      ensures !Opens(t[i]) && !StartsCommentAt(t, i)
    {
      if i > 0 {
        assert t[i] == s[i - 1] && !StartsCommentAt(s, i - 1);
      }
    }
  }

  function AllCode(s: string): seq<Token> {
    seq(|s|, i requires 0 <= i < |s| => Code(s[i]))
  }

  lemma {:induction false} CleanIsAllCode(s: string, start: nat)
    requires Clean(s) && start <= |s|
    ensures Lexes(s, start, AllCode(s)[start..])
    decreases |s| - start
  {
    if start < |s| {
      CleanIsAllCode(s, start + 1);
      assert AllCode(s)[start..][1..] == AllCode(s)[start + 1..];
      assert [s[start]] + s[start + 1..] == s[start..];
      assert !StartsCommentAt(s, start);
    }
  }

  /** Stripping what was stripped changes nothing. */
  lemma StrippingIsIdempotent(source: string, tokens: seq<Token>, again: seq<Token>)
    requires Lexes(source, 0, tokens) && Lexes(Images(tokens), 0, again)
    ensures Images(again) == Images(tokens)
  {
    hide Lexes, Clean;
    var s := Images(tokens);
    OutputIsClean(source, 0, tokens);
    CleanIsAllCode(s, 0);
    assert AllCode(s)[0..] == AllCode(s);
    LexingIsUnique(s, 0, again, AllCode(s));
  }

  /** No token joins its neighbours: two characters of code that are adjacent in the output are the
      i-th token of the source and the character right behind it. */
  lemma {:induction false} AdjacentCodeWasAdjacent(source: string, start: nat, tokens: seq<Token>,
                          i: nat) returns (p: nat)
    requires start <= |source| && Lexes(source, start, tokens) && i + 1 < |tokens|
    requires Images(tokens)[i] !in {' ', '\n'} && Images(tokens)[i + 1] !in {' ', '\n'}
    ensures p == start + |Concatenated(tokens[..i])| && p + 1 < |source|
    ensures source[p] == Images(tokens)[i] && source[p + 1] == Images(tokens)[i + 1]
    decreases i
  {
    hide Text, Whole, Opens, StartsCommentAt;
    var end := start + |Text(tokens[0])|;
    ImageAt(source, start, tokens[0]);
    if i == 0 {
      p := start;
      ImageAt(source, end, tokens[1]);
      CodeIsOneChar(tokens[0]);
      assert tokens[..0] == [];
    } else {
      OneMoreImage(tokens);
      p := AdjacentCodeWasAdjacent(source, end, tokens[1..], i - 1);
      assert tokens[..i][1..] == tokens[1..][..i - 1];
    }
  }

  lemma CodeIsOneChar(t: Token)
    ensures t.Code? ==> |Text(t)| == 1
  {
  }

  function Concatenated(tokens: seq<Token>): string {
    if tokens == [] then "" else Text(tokens[0]) + Concatenated(tokens[1..])
  }

  /** The tokens are all of the source, in order. */
  lemma {:induction false} TokensAreTheSource(source: string, start: nat, tokens: seq<Token>)
    requires start <= |source| && Lexes(source, start, tokens)
    ensures Concatenated(tokens) == source[start..]
    decreases tokens
  {
    hide Text, WellFormed;
    if tokens != [] {
      var end := start + |Text(tokens[0])|;
      TokensAreTheSource(source, end, tokens[1..]);
      assert source[start..] == source[start..end] + source[end..];
    }
  }
}
