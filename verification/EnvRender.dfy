/** Rendering the governance gates into an environment file without touching any other byte. */
module EnvRender {
  import opened Optional

  // ---------- lines, with their terminators ----------

  /** The length of the first line of `b`: LF, CR and CRLF end a line. */
  function LineEnd(b: string): (n: nat)
    requires b != ""
    ensures 1 <= n <= |b|
  {
    if b[0] == '\n' || |b| == 1 then 1
    else if b[0] == '\r' then (if b[1] == '\n' then 2 else 1)
    else 1 + LineEnd(b[1..])
  }

  function SplitLines(b: string): (lines: seq<string>) {
    if b == "" then [] else [b[..LineEnd(b)]] + SplitLines(b[LineEnd(b)..])
  }

  function Join(lines: seq<string>): string {
    if lines == [] then "" else lines[0] + Join(lines[1..])
  }

  // ---------- one line ----------

  predicate IsSpace(c: char) {
    c == ' ' || '\t' <= c <= '\r' || '\U{1c}' <= c <= '\U{1f}'
  }

  function StripLeft(s: string): (r: string)
    ensures |r| <= |s|
  {
    if s != "" && IsSpace(s[0]) then StripLeft(s[1..]) else s
  }

  function StripRight(s: string): (r: string)
    ensures |r| <= |s|
  {
    if s != "" && IsSpace(s[|s| - 1]) then StripRight(s[..|s| - 1]) else s
  }

  function Strip(s: string): string {
    StripLeft(StripRight(s))
  }

  predicate IsLetter(c: char) {
    'a' <= c <= 'z' || 'A' <= c <= 'Z' || c == '_'
  }

  predicate IsKey(s: string) {
    s != "" && IsLetter(s[0]) && forall i | 0 <= i < |s| :: IsLetter(s[i]) || '0' <= s[i] <= '9'
  }

  datatype Lexing = Word | Escaped | SingleQuoted | DoubleQuoted | EscapedInDouble

  /** Whether the POSIX shell lexer reaches the end of `value` outside quotes and escapes. */
  predicate Lexes(value: string, state: Lexing) {
    if value == "" then state == Word
    else
      var c := value[0];
      Lexes(value[1..],
        match state
        case Word => if c == '\\' then Escaped else if c == '\'' then SingleQuoted else if c == '"' then DoubleQuoted else Word
        case Escaped => Word
        case SingleQuoted => if c == '\'' then Word else SingleQuoted
        case DoubleQuoted => if c == '"' then Word else if c == '\\' then EscapedInDouble else DoubleQuoted
        case EscapedInDouble => DoubleQuoted)
  }

  function IndexOf(s: string, c: char): (i: nat)
    ensures i <= |s|
    ensures i < |s| ==> s[i] == c
    ensures forall j | 0 <= j < i :: s[j] != c
  {
    if s == "" || s[0] == c then 0 else 1 + IndexOf(s[1..], c)
  }

  datatype Line = Other | Setting(key: string) | Unsupported

  function Classify(line: string): Line {
    var text := Strip(line);
    if text == "" || text[0] == '#' || text[0] == ';' then Other
    else
      var eq := IndexOf(text, '=');
      var key := Strip(text[..eq]);
      if eq == |text| || !IsKey(key) || '\0' in text || !Lexes(text[eq + 1..], Word) then Unsupported
      else Setting(key)
  }

  // ---------- rendering ----------

  const KEYS: seq<string> := [
    "AICRM_OPS_ENABLED", "AICRM_OPS_NOTIFICATION_ENABLED", "AICRM_OPS_RETENTION_ENABLED",
    "AICRM_OPS_TARGET_REF", "AICRM_OPS_WEBHOOK_FILE"]

  function Flag(b: bool): string {
    if b then "true" else "false"
  }

  function Values(enabled: bool, retention: bool): seq<string> {
    [Flag(enabled), Flag(enabled), Flag(retention), "original-ops-group", "/etc/aicrm/ops-feishu-webhook"]
  }

  predicate Managed(line: string) {
    Classify(line).Setting? && Classify(line).key in KEYS
  }

  /** What the service manager reads from the lines: the settings, in order. */
  function Settings(lines: seq<string>): seq<(string, string)> {
    if lines == [] then [] else Entry(lines[0]) + Settings(lines[1..])
  }

  function Entry(line: string): seq<(string, string)> {
    match Classify(line)
    case Setting(key) => [(key, Strip(line))]
    case _ => []
  }

  predicate Supported(lines: seq<string>) {
    forall l | l in lines :: Classify(l) != Unsupported
  }

  predicate DistinctKeys(settings: seq<(string, string)>) {
    forall i, j | 0 <= i < j < |settings| :: settings[i].0 != settings[j].0
  }

  function Kept(lines: seq<string>): seq<string> {
    if lines == [] then [] else Remains(lines[0]) + Kept(lines[1..])
  }

  function Remains(line: string): seq<string> {
    if Managed(line) then [] else [line]
  }

  function Unmanaged(settings: seq<(string, string)>): seq<(string, string)> {
    if settings == [] then []
    else (if settings[0].0 in KEYS then [] else [settings[0]]) + Unmanaged(settings[1..])
  }

  /** The missing newline of the last kept line. */
  function Finish(prefix: string): string {
    if prefix != "" && prefix[|prefix| - 1] != '\n' then prefix + "\n" else prefix
  }

  function GateLine(i: nat, enabled: bool, retention: bool): string
    requires i < 5
  {
    KEYS[i] + "=" + Values(enabled, retention)[i] + "\n"
  }

  function GateLines(enabled: bool, retention: bool): seq<string> {
    seq(5, i requires 0 <= i < 5 => GateLine(i, enabled, retention))
  }

  function GateSettings(enabled: bool, retention: bool): seq<(string, string)> {
    seq(5, i requires 0 <= i < 5 => (KEYS[i], KEYS[i] + "=" + Values(enabled, retention)[i]))
  }

  function Accepts(original: string): bool {
    Supported(SplitLines(original)) && DistinctKeys(Settings(SplitLines(original)))
  }

  function Rendered(original: string, enabled: bool, retention: bool): Option<string> {
    if (retention && !enabled) || !Accepts(original) then None
    else Some(Finish(Join(Kept(SplitLines(original)))) + Join(GateLines(enabled, retention)))
  }

  // ---------- the loop ----------

  method Render(original: string, enabled: bool, retention: bool) returns (r: Option<string>)
    ensures r == Rendered(original, enabled, retention)
  {
    hide Classify, Join, Kept, Settings, SplitLines, Finish, GateLines, Strip;
    NothingReads();
    if retention && !enabled {
      return None;
    }
    var kept: seq<string> := [];
    var seen: set<string> := {};
    var lines := SplitLines(original);
    for i := 0 to |lines|
      invariant Supported(lines[..i])
      invariant kept == Kept(lines[..i])
      invariant DistinctKeys(Settings(lines[..i]))
      invariant forall key :: key in seen <==> exists e | e in Settings(lines[..i]) :: e.0 == key
    {
      var line := lines[i];
      FilterOneMore(lines[..i], line);
      assert lines[..i + 1] == lines[..i] + [line];
      match Classify(line) {
        case Other => kept := kept + [line];
        case Unsupported =>
          assert line in lines;
          return None;
        case Setting(key) =>
          if key in seen {
            ghost var before, after := Settings(lines[..i]), Settings(lines[..i + 1]);
            ghost var e :| e in before && e.0 == key;
            ghost var k :| 0 <= k < |before| && before[k] == e;
            assert after == before + [(key, Strip(line))];
            assert after[k].0 == after[|before|].0;
            DuplicateStays(lines, i + 1);
            return None;
          }
          seen := seen + {key};
          if key !in KEYS {
            kept := kept + [line];
          }
      }
    }
    assert lines[..|lines|] == lines;
    var prefix := Finish(Join(kept));
    r := Some(prefix + Join(GateLines(enabled, retention)));
  }

  lemma FilterOneMore(lines: seq<string>, line: string)
    ensures Kept(lines + [line]) == Kept(lines) + Remains(line)
    ensures Settings(lines + [line]) == Settings(lines) + Entry(line)
  {
    hide Remains, Entry;
    SettingsAppend(lines, [line]);
    KeptAppend(lines, [line]);
  }

  lemma TailOfAppend<T>(a: seq<T>, b: seq<T>)
    requires a != []
    ensures (a + b)[0] == a[0] && (a + b)[1..] == a[1..] + b
  {
  }

  lemma Associate<T>(a: seq<T>, b: seq<T>, c: seq<T>)
    ensures a + (b + c) == a + b + c
  {
  }

  lemma {:induction false} SettingsAppend(a: seq<string>, b: seq<string>)
    ensures Settings(a + b) == Settings(a) + Settings(b)
  {
    hide Entry;
    if a == [] {
      assert a + b == b;
    } else {
      SettingsAppend(a[1..], b);
      TailOfAppend(a, b);
      Associate(Entry(a[0]), Settings(a[1..]), Settings(b));
    }
  }

  lemma {:induction false} KeptAppend(a: seq<string>, b: seq<string>)
    ensures Kept(a + b) == Kept(a) + Kept(b)
  {
    hide Remains;
    if a == [] {
      assert a + b == b;
    } else {
      KeptAppend(a[1..], b);
      TailOfAppend(a, b);
      Associate(Remains(a[0]), Kept(a[1..]), Kept(b));
    }
  }

  lemma DuplicateStays(lines: seq<string>, n: nat)
    requires n <= |lines| && !DistinctKeys(Settings(lines[..n]))
    ensures !DistinctKeys(Settings(lines))
  {
    SettingsAppend(lines[..n], lines[n..]);
    assert lines == lines[..n] + lines[n..];
    var s, t := Settings(lines[..n]), Settings(lines);
    assert forall i | 0 <= i < |s| :: s[i] == t[i];
  }

  // ---------- splitting and joining ----------

  predicate Proper(l: string) {
    l != "" && LineEnd(l) == |l|
  }

  predicate Terminated(l: string) {
    l != "" && (l[|l| - 1] == '\n' || l[|l| - 1] == '\r')
  }

  /** Lines as a file has them: only the last one can lack its terminator. */
  predicate LineSeq(ls: seq<string>) {
    forall i | 0 <= i < |ls| :: Proper(ls[i]) && (i < |ls| - 1 ==> Terminated(ls[i]))
  }

  lemma {:induction false} FirstLineIsProper(b: string)
    requires b != ""
    ensures var l := b[..LineEnd(b)]; Proper(l) && (LineEnd(b) < |b| ==> Terminated(l))
  {
    if b[0] != '\n' && |b| > 1 && b[0] != '\r' {
      FirstLineIsProper(b[1..]);
      assert b[..LineEnd(b)][1..] == b[1..][..LineEnd(b[1..])];
    }
  }

  lemma {:induction false} SplitIsLineSeq(b: string)
    ensures LineSeq(SplitLines(b))
  {
    hide LineEnd, Proper, Terminated;
    if b != "" {
      FirstLineIsProper(b);
      SplitIsLineSeq(b[LineEnd(b)..]);
    }
  }

  /** Lines as an editor shows them: every line but the last ends in LF, CRLF or a CR before no LF,
      and no line has such an end before its own. */
  ghost predicate AreLines(lines: seq<string>) {
    forall k | 0 <= k < |lines| :: Whole(lines[k]) && (k + 1 < |lines| ==> Breaks(lines[k], lines[k + 1]))
  }

  ghost predicate Whole(l: string) {
    l != "" && forall i | 0 <= i < |l| - 1 :: l[i] != '\n' && (l[i] == '\r' ==> l[i + 1] == '\n')
  }

  ghost predicate Breaks(l: string, next: string) {
    l != "" && next != "" && (l[|l| - 1] == '\n' || (l[|l| - 1] == '\r' && next[0] != '\n'))
  }

  lemma {:induction false} LinesMean(b: string)
    ensures AreLines(SplitLines(b))
  {
    hide LineEnd, Whole;
    if b != "" {
      var n := LineEnd(b);
      FirstLineMeans(b);
      LinesMean(b[n..]);
      var rest := SplitLines(b[n..]);
      assert SplitLines(b) == [b[..n]] + rest;
      if n < |b| {
        FirstLineIsProper(b);
        FirstStarts(b[n..]);
        assert Breaks(b[..n], rest[0]);
      }
    }
  }

  lemma FirstStarts(b: string)
    requires b != ""
    ensures SplitLines(b) != [] && SplitLines(b)[0] != "" && SplitLines(b)[0][0] == b[0]
  {
  }

  lemma {:induction false} FirstLineMeans(b: string)
    requires b != ""
    ensures Whole(b[..LineEnd(b)])
    ensures b[LineEnd(b) - 1] == '\r' && LineEnd(b) < |b| ==> b[LineEnd(b)] != '\n'
  {
    if b[0] != '\n' && |b| > 1 && b[0] != '\r' {
      FirstLineMeans(b[1..]);
      assert b[..LineEnd(b)][1..] == b[1..][..LineEnd(b[1..])];
      var l := b[..LineEnd(b)];
      assert forall i | 1 <= i < |l| :: l[i] == l[1..][i - 1];
    }
  }

  lemma {:induction false} JoinOfSplit(b: string)
    ensures Join(SplitLines(b)) == b
  {
    hide LineEnd;
    if b != "" {
      JoinOfSplit(b[LineEnd(b)..]);
      assert b == b[..LineEnd(b)] + b[LineEnd(b)..];
    }
  }

  lemma {:induction false} LineEndAppend(l: string, r: string)
    requires Proper(l) && Terminated(l) && r != ""
    ensures LineEnd(l + r) == if l[|l| - 1] == '\r' && r[0] == '\n' then |l| + 1 else |l|
  {
    if l[0] != '\n' && l[0] != '\r' {
      assert |l| > 1;
      LineEndAppend(l[1..], r);
      assert (l + r)[1..] == l[1..] + r;
    }
  }

  lemma {:induction false} SplitAppend(p: string, q: string)
    requires p == "" || p[|p| - 1] == '\n'
    ensures SplitLines(p + q) == SplitLines(p) + SplitLines(q)
  {
    hide LineEnd, SplitLines;
    if p == "" {
      assert p + q == q;
      NothingSplits();
    } else {
      var l, tail := p[..LineEnd(p)], p[LineEnd(p)..];
      assert p == l + tail;
      EndsBefore(p, q);
      SplitAppend(tail, q);
      Associate(l, tail, q);
      SplitFirst(l, tail);
      SplitFirst(l, tail + q);
      Associate([l], SplitLines(tail), SplitLines(q));
    }
  }

  lemma {:induction false} EndsBefore(p: string, q: string)
    requires p != "" && p[|p| - 1] == '\n'
    ensures LineEnd(p + q) == LineEnd(p)
  {
    if p[0] != '\n' && p[0] != '\r' {
      EndsBefore(p[1..], q);
      assert (p + q)[1..] == p[1..] + q;
    }
  }

  lemma {:induction false} JoinAppend(a: seq<string>, b: seq<string>)
    ensures Join(a + b) == Join(a) + Join(b)
  {
    if a == [] {
      assert a + b == b;
    } else {
      JoinAppend(a[1..], b);
      TailOfAppend(a, b);
      Associate(a[0], Join(a[1..]), Join(b));
    }
  }

  // ---------- what removing lines does to the remaining ones ----------

  lemma StripIgnoresNewline(l: string)
    ensures Strip(l + "\n") == Strip(l) && Classify(l + "\n") == Classify(l)
  {
    assert (l + "\n")[..|l|] == l;
  }

  lemma BlankLine()
    ensures Classify("\n") == Other
  {
    StripIgnoresNewline("");
    assert "" + "\n" == "\n";
  }

  lemma LinesAreNotEmpty(ls: seq<string>)
    requires LineSeq(ls) && ls != []
    ensures Join(ls) != ""
  {
    assert Proper(ls[0]);
  }

  lemma NothingSplits()
    ensures SplitLines("") == [] && Join([]) == ""
  {
  }

  /** A bare CR and a following lone LF become one CRLF line; nothing else moves. */
  lemma HeadReadsTheSame(l: string, r: string)
    requires Proper(l) && (r != "" ==> Terminated(l))
    ensures Supported(SplitLines(l + r)) <==> Classify(l) != Unsupported && Supported(SplitLines(r))
    ensures Settings(SplitLines(l + r)) == Entry(l) + Settings(SplitLines(r))
  {
    hide Classify, Strip, SplitLines, Settings, Supported;
    if r == "" {
      assert l + r == l;
      SplitHead(l, r);
    } else {
      LineEndAppend(l, r);
      if l[|l| - 1] == '\r' && r[0] == '\n' {
        assert (l + "\n") + r[1..] == l + r && "\n" + r[1..] == r;
        SplitHead(l + "\n", r[1..]);
        SplitHead("\n", r[1..]);
        StripIgnoresNewline(l);
        BlankLine();
      } else {
        SplitHead(l, r);
      }
    }
  }

  lemma {:induction false} JoinedLinesReadTheSame(ls: seq<string>)
    requires LineSeq(ls)
    ensures Supported(SplitLines(Join(ls))) <==> Supported(ls)
    ensures Settings(SplitLines(Join(ls))) == Settings(ls)
  {
    hide Classify, Strip, SplitLines, Proper, Terminated, Entry;
    if ls == [] {
      NothingSplits();
    } else {
      assert ls == [ls[0]] + ls[1..];
      JoinedLinesReadTheSame(ls[1..]);
      if |ls| > 1 {
        LinesAreNotEmpty(ls[1..]);
      }
      HeadReadsTheSame(ls[0], Join(ls[1..]));
    }
  }

  lemma SplitFirst(l: string, r: string)
    requires l != "" && LineEnd(l + r) == |l|
    ensures SplitLines(l + r) == [l] + SplitLines(r)
  {
    assert (l + r)[..|l|] == l && (l + r)[|l|..] == r;
  }

  lemma SplitHead(l: string, r: string)
    requires l != "" && LineEnd(l + r) == |l|
    ensures SplitLines(l + r) == [l] + SplitLines(r)
    ensures Settings([l] + SplitLines(r)) == Entry(l) + Settings(SplitLines(r))
    ensures Supported([l] + SplitLines(r)) <==> Classify(l) != Unsupported && Supported(SplitLines(r))
  {
    hide Entry, Classify, SplitLines, LineEnd;
    SplitFirst(l, r);
    assert ([l] + SplitLines(r))[1..] == SplitLines(r);
  }

  lemma {:induction false} KeptIsLineSeq(ls: seq<string>)
    requires LineSeq(ls)
    ensures LineSeq(Kept(ls))
  {
    hide Managed, Proper, Terminated;
    if ls != [] {
      KeptIsLineSeq(ls[1..]);
      assert ls[1..] == [] ==> Kept(ls[1..]) == [];
      if !Managed(ls[0]) {
        assert Kept(ls) == [ls[0]] + Kept(ls[1..]);
      }
    }
  }

  lemma {:induction false} KeptSettings(ls: seq<string>)
    ensures Settings(Kept(ls)) == Unmanaged(Settings(ls))
    ensures forall l | l in Kept(ls) :: l in ls
  {
    hide Entry, Remains;
    if ls != [] {
      KeptSettings(ls[1..]);
      LineSettings(ls[0]);
      SettingsAppend(Remains(ls[0]), Kept(ls[1..]));
      UnmanagedAppend(Entry(ls[0]), Settings(ls[1..]));
    }
  }

  lemma LineSettings(l: string)
    ensures Settings(Remains(l)) == Unmanaged(Entry(l))
    ensures forall l' | l' in Remains(l) :: l' == l
  {
    hide Classify, Strip;
  }

  lemma {:induction false} UnmanagedAppend(a: seq<(string, string)>, b: seq<(string, string)>)
    ensures Unmanaged(a + b) == Unmanaged(a) + Unmanaged(b)
  {
    if a == [] {
      assert a + b == b;
    } else {
      UnmanagedAppend(a[1..], b);
      TailOfAppend(a, b);
    }
  }

  lemma JoinLast(front: seq<string>, last: string)
    ensures Join(front + [last]) == Join(front) + last
    ensures Settings(front + [last]) == Settings(front) + Entry(last)
  {
    hide Entry;
    JoinAppend(front, [last]);
    SettingsAppend(front, [last]);
    assert Join([last]) == last && Settings([last]) == Entry(last);
  }

  /** Adding the missing newline extends the last line and changes no setting. */
  lemma FinishedLines(ls: seq<string>) returns (ls': seq<string>)
    requires LineSeq(ls)
    ensures LineSeq(ls') && Join(ls') == Finish(Join(ls))
    ensures Settings(ls') == Settings(ls) && (Supported(ls) ==> Supported(ls'))
  {
    hide Classify, Strip, Join, Settings, Proper;
    NothingSplits();
    if ls == [] || Finish(Join(ls)) == Join(ls) {
      ls' := ls;
    } else {
      var front, last := ls[..|ls| - 1], ls[|ls| - 1];
      assert ls == front + [last];
      ls' := front + [last + "\n"];
      assert Proper(last) && last != "" by {
        ProperIsNotEmpty(last);
      }
      JoinLast(front, last);
      JoinLast(front, last + "\n");
      Associate(Join(front), last, "\n");
      assert Join(ls)[|Join(ls)| - 1] == last[|last| - 1];
      NewlineKeepsProper(last);
      StripIgnoresNewline(last);
    }
  }

  lemma ProperIsNotEmpty(l: string)
    requires Proper(l)
    ensures l != ""
  {
  }

  lemma {:induction false} NewlineKeepsProper(l: string)
    requires Proper(l) && l[|l| - 1] != '\n'
    ensures Proper(l + "\n")
  {
    if l[0] != '\r' {
      if |l| > 1 {
        NewlineKeepsProper(l[1..]);
        assert (l + "\n")[1..] == l[1..] + "\n";
      }
    }
  }

  /** A file without managed settings loses no line. */
  lemma {:induction false} NothingToRemove(ls: seq<string>)
    requires forall e | e in Settings(ls) :: e.0 !in KEYS
    ensures Kept(ls) == ls
  {
    hide Classify, Strip;
    if ls != [] {
      assert Classify(ls[0]).Setting? ==> Settings(ls)[0].0 == Classify(ls[0]).key;
      assert Settings(ls) == Entry(ls[0]) + Settings(ls[1..]);
      NothingToRemove(ls[1..]);
    }
  }

  // ---------- the managed block ----------

  predicate PlainValue(v: string) {
    v != "" && forall i | 0 <= i < |v| :: Plain(v[i])
  }

  predicate Plain(c: char) {
    !IsSpace(c) && c != '\\' && c != '\'' && c != '"' && c != '\0'
  }

  lemma {:induction false} PlainValueLexes(v: string)
    requires forall i | 0 <= i < |v| :: Plain(v[i])
    ensures Lexes(v, Word)
  {
    if v != "" {
      PlainValueLexes(v[1..]);
    }
  }

  lemma {:induction false} SingleLine(x: string)
    requires forall i | 0 <= i < |x| :: x[i] != '\n' && x[i] != '\r'
    ensures Proper(x + "\n")
  {
    if x != "" {
      SingleLine(x[1..]);
      assert (x + "\n")[1..] == x[1..] + "\n";
      assert (x + "\n")[0] == x[0];
    }
  }

  lemma StripIsIdentity(s: string)
    requires s != "" && !IsSpace(s[0]) && !IsSpace(s[|s| - 1])
    ensures Strip(s) == s
  {
  }

  lemma PartsOfSetting(k: string, v: string)
    requires forall i | 0 <= i < |k| :: k[i] != '='
    ensures var text := k + "=" + v;
            IndexOf(text, '=') == |k| && text[..|k|] == k && text[|k| + 1..] == v
  {
    var text := k + "=" + v;
    assert text[|k|] == '=';
    assert forall i | 0 <= i < |k| :: text[i] == k[i];
  }

  lemma SettingText(k: string, v: string)
    requires IsKey(k) && PlainValue(v)
    ensures forall i | 0 <= i < |k| :: k[i] != '='
    ensures !IsSpace(k[0]) && !IsSpace(k[|k| - 1]) && k[0] != '#' && k[0] != ';'
    ensures var text := k + "=" + v;
            && text != "" && text[0] == k[0] && !IsSpace(text[|text| - 1])
            && '\0' !in text && forall i | 0 <= i < |text| :: text[i] != '\n' && text[i] != '\r'
  {
    var text := k + "=" + v;
    assert forall i | 0 <= i < |text| :: text[i] == if i < |k| then k[i] else if i == |k| then '=' else v[i - |k| - 1];
  }

  lemma GateLineReads(k: string, v: string)
    requires IsKey(k) && PlainValue(v)
    ensures Proper(k + "=" + v + "\n")
    ensures Strip(k + "=" + v + "\n") == k + "=" + v && Classify(k + "=" + v + "\n") == Setting(k)
  {
    hide Strip, Lexes, Proper, IsSpace, IndexOf;
    var text := k + "=" + v;
    SettingText(k, v);
    SingleLine(text);
    StripIgnoresNewline(text);
    StripIsIdentity(text);
    StripIsIdentity(k);
    PartsOfSetting(k, v);
    PlainValueLexes(v);
  }

  lemma ManagedKeys()
    ensures forall i | 0 <= i < 5 :: IsKey(KEYS[i])
  {
  }

  lemma ManagedKeysDiffer()
    ensures forall i, j | 0 <= i < j < 5 :: KEYS[i] != KEYS[j]
  {
    assert |KEYS[0]| == 17 && |KEYS[1]| == 30 && |KEYS[2]| == 27 && |KEYS[3]| == 20 && |KEYS[4]| == 22;
  }

  lemma ManagedValues(enabled: bool, retention: bool)
    ensures forall i | 0 <= i < 5 :: PlainValue(Values(enabled, retention)[i])
  {
    assert PlainValue("true") && PlainValue("false");
    assert PlainValue("original-ops-group");
    assert PlainValue("/etc/aicrm/ops-feishu-webhook");
  }

  lemma {:induction false} NewlineLinesSplit(ls: seq<string>)
    requires forall l | l in ls :: Proper(l) && l[|l| - 1] == '\n'
    ensures SplitLines(Join(ls)) == ls
  {
    hide SplitLines, LineEnd;
    if ls == [] {
      NothingSplits();
    } else {
      NewlineLinesSplit(ls[1..]);
      var l, r := ls[0], Join(ls[1..]);
      if r == "" {
        assert l + r == l;
      } else {
        LineEndAppend(l, r);
      }
      SplitFirst(l, r);
      assert ls == [l] + ls[1..];
    }
  }

  lemma GateLineIsSetting(i: nat, enabled: bool, retention: bool)
    requires i < 5
    ensures var l := GateLine(i, enabled, retention);
            && l != "" && Proper(l) && l[|l| - 1] == '\n' && Classify(l) == Setting(KEYS[i])
            && Strip(l) == KEYS[i] + "=" + Values(enabled, retention)[i]
  {
    hide Classify, Strip, Proper, IsKey, PlainValue;
    ManagedKeys();
    ManagedValues(enabled, retention);
    GateLineReads(KEYS[i], Values(enabled, retention)[i]);
  }

  lemma GateLinesRead(enabled: bool, retention: bool)
    ensures forall l | l in GateLines(enabled, retention) :: Managed(l)
    ensures SplitLines(Join(GateLines(enabled, retention))) == GateLines(enabled, retention)
  {
    hide Classify, Strip, Proper, GateLine, SplitLines, Join;
    forall i: nat | i < 5
      ensures var l := GateLine(i, enabled, retention);
              l != "" && Proper(l) && l[|l| - 1] == '\n' && Managed(l)
    {
      GateLineIsSetting(i, enabled, retention);
      assert KEYS[i] in KEYS;
    }
    NewlineLinesSplit(GateLines(enabled, retention));
  }

  lemma {:induction false} GateSettingsRead(enabled: bool, retention: bool, n: nat)
    requires n <= 5
    ensures Settings(GateLines(enabled, retention)[..n]) == GateSettings(enabled, retention)[..n]
    ensures Kept(GateLines(enabled, retention)[..n]) == []
  {
    hide Classify, Strip, GateLine, Kept, Settings;
    var lines, settings := GateLines(enabled, retention), GateSettings(enabled, retention);
    if n == 0 {
      assert lines[..0] == [] && settings[..0] == [];
      NothingReads();
    } else {
      GateSettingsRead(enabled, retention, n - 1);
      GateLineIsSetting(n - 1, enabled, retention);
      assert KEYS[n - 1] in KEYS;
      assert lines[..n] == lines[..n - 1] + [lines[n - 1]];
      assert settings[..n] == settings[..n - 1] + [settings[n - 1]];
      FilterOneMore(lines[..n - 1], lines[n - 1]);
    }
  }

  lemma NothingReads()
    ensures Settings([]) == [] && Kept([]) == []
  {
  }

  // ---------- what a rendered file says ----------

  function PrefixOf(original: string): string {
    Finish(Join(Kept(SplitLines(original))))
  }

  lemma PrefixReads(original: string)
    requires Supported(SplitLines(original))
    ensures Supported(SplitLines(PrefixOf(original)))
    ensures Settings(SplitLines(PrefixOf(original))) == Unmanaged(Settings(SplitLines(original)))
  {
    hide Classify, Strip, Finish, Join, SplitLines;
    SplitIsLineSeq(original);
    KeptIsLineSeq(SplitLines(original));
    KeptSettings(SplitLines(original));
    var ls := FinishedLines(Kept(SplitLines(original)));
    JoinedLinesReadTheSame(ls);
  }

  lemma {:induction false} UnmanagedKeys(settings: seq<(string, string)>)
    ensures forall e | e in Unmanaged(settings) :: e in settings && e.0 !in KEYS
    ensures DistinctKeys(settings) ==> DistinctKeys(Unmanaged(settings))
  {
    if settings != [] {
      UnmanagedKeys(settings[1..]);
      assert DistinctKeys(settings) ==> forall e | e in settings[1..] :: e.0 != settings[0].0;
    }
  }

  lemma KeysStayDistinct(a: seq<(string, string)>, b: seq<(string, string)>)
    requires DistinctKeys(a) && DistinctKeys(b)
    requires (forall e | e in a :: e.0 !in KEYS) && (forall e | e in b :: e.0 in KEYS)
    ensures DistinctKeys(a + b)
  {
    assert forall i | 0 <= i < |a| :: a[i] in a;
    assert forall i | 0 <= i < |b| :: b[i] in b;
  }

  /** Every unrelated setting keeps its text and its place; each gate is there exactly once, last,
      with the requested value; and the result is itself acceptable. */
  lemma RenderedReads(original: string, enabled: bool, retention: bool)
    requires Rendered(original, enabled, retention).Some?
    ensures var out := Rendered(original, enabled, retention).value;
            && out == PrefixOf(original) + Join(GateLines(enabled, retention))
            && SplitLines(out) == SplitLines(PrefixOf(original)) + GateLines(enabled, retention)
            && Settings(SplitLines(out)) == Unmanaged(Settings(SplitLines(original))) + GateSettings(enabled, retention)
            && Accepts(out)
  {
    hide Classify, Strip, Join, SplitLines, Kept, Settings, Unmanaged, GateLine, Values;
    var prefix, gates := PrefixOf(original), GateLines(enabled, retention);
    var settings := Settings(SplitLines(original));
    PrefixReads(original);
    GateLinesRead(enabled, retention);
    GateSettingsRead(enabled, retention, 5);
    assert gates[..5] == gates && GateSettings(enabled, retention)[..5] == GateSettings(enabled, retention);
    SplitAppend(prefix, Join(gates));
    SettingsAppend(SplitLines(prefix), gates);
    UnmanagedKeys(settings);
    ManagedKeysDiffer();
    KeysStayDistinct(Unmanaged(settings), GateSettings(enabled, retention));
    assert Supported(SplitLines(prefix) + gates);
  }

  // ---------- the rendered file, written out ----------

  /** The entry of `key` is there once, and reads `text`. */
  ghost predicate OnlyEntry(entries: seq<(string, string)>, key: string, text: string) {
    && (key, text) in entries
    && (forall e | e in entries && e.0 == key :: e.1 == text)
    && (forall i, j | 0 <= i < j < |entries| :: entries[i].0 != key || entries[j].0 != key)
  }

  /** The gates as an operator reads them: inspections and notifications together, retention for
      itself, and the two fixed references. */
  lemma GatesSay(original: string, enabled: bool, retention: bool)
    requires Rendered(original, enabled, retention).Some?
    ensures var entries := Settings(SplitLines(Rendered(original, enabled, retention).value));
            && OnlyEntry(entries, "AICRM_OPS_ENABLED", "AICRM_OPS_ENABLED=" + if enabled then "true" else "false")
            && OnlyEntry(entries, "AICRM_OPS_NOTIFICATION_ENABLED", "AICRM_OPS_NOTIFICATION_ENABLED=" + if enabled then "true" else "false")
            && OnlyEntry(entries, "AICRM_OPS_RETENTION_ENABLED", "AICRM_OPS_RETENTION_ENABLED=" + if retention then "true" else "false")
            && OnlyEntry(entries, "AICRM_OPS_TARGET_REF", "AICRM_OPS_TARGET_REF=original-ops-group")
            && OnlyEntry(entries, "AICRM_OPS_WEBHOOK_FILE", "AICRM_OPS_WEBHOOK_FILE=/etc/aicrm/ops-feishu-webhook")
  {
    hide Settings, SplitLines, Rendered, Accepts, Unmanaged, GateSettings, OnlyEntry;
    RenderedReads(original, enabled, retention);
    var out := Rendered(original, enabled, retention).value;
    var entries := Settings(SplitLines(out));
    AcceptedIsDistinct(out);
    GateEntries(enabled, retention);
    var others, gates := Unmanaged(Settings(SplitLines(original))), GateSettings(enabled, retention);
    forall i: nat | i < 5
      ensures OnlyEntry(entries, gates[i].0, gates[i].1)
    {
      assert entries[|others| + i] == gates[i];
      EntryIsOnly(entries, |others| + i);
    }
  }

  lemma AcceptedIsDistinct(original: string)
    requires Accepts(original)
    ensures DistinctKeys(Settings(SplitLines(original)))
  {
  }

  lemma EntryIsOnly(entries: seq<(string, string)>, i: nat)
    requires i < |entries| && DistinctKeys(entries)
    ensures OnlyEntry(entries, entries[i].0, entries[i].1)
  {
  }

  lemma GateEntries(enabled: bool, retention: bool)
    ensures var gates := GateSettings(enabled, retention);
            && |gates| == 5
            && gates[0] == ("AICRM_OPS_ENABLED", "AICRM_OPS_ENABLED=" + if enabled then "true" else "false")
            && gates[1] == ("AICRM_OPS_NOTIFICATION_ENABLED", "AICRM_OPS_NOTIFICATION_ENABLED=" + if enabled then "true" else "false")
            && gates[2] == ("AICRM_OPS_RETENTION_ENABLED", "AICRM_OPS_RETENTION_ENABLED=" + if retention then "true" else "false")
            && gates[3] == ("AICRM_OPS_TARGET_REF", "AICRM_OPS_TARGET_REF=original-ops-group")
            && gates[4] == ("AICRM_OPS_WEBHOOK_FILE", "AICRM_OPS_WEBHOOK_FILE=/etc/aicrm/ops-feishu-webhook")
  {
    hide Flag;
    var gates, values := GateSettings(enabled, retention), Values(enabled, retention);
    assert forall i | 0 <= i < 5 :: gates[i] == (KEYS[i], KEYS[i] + "=" + values[i]);
    assert gates[0] == ("AICRM_OPS_ENABLED", "AICRM_OPS_ENABLED" + "=" + Flag(enabled));
    assert gates[1] == ("AICRM_OPS_NOTIFICATION_ENABLED", "AICRM_OPS_NOTIFICATION_ENABLED" + "=" + Flag(enabled));
    assert gates[2] == ("AICRM_OPS_RETENTION_ENABLED", "AICRM_OPS_RETENTION_ENABLED" + "=" + Flag(retention));
    assert gates[3] == ("AICRM_OPS_TARGET_REF", "AICRM_OPS_TARGET_REF" + "=" + "original-ops-group");
    assert gates[4] == ("AICRM_OPS_WEBHOOK_FILE", "AICRM_OPS_WEBHOOK_FILE" + "=" + "/etc/aicrm/ops-feishu-webhook");
    EnabledText(Flag(enabled));
    NotificationText(Flag(enabled));
    RetentionText(Flag(retention));
    ReferenceTexts();
    FlagsRead(enabled, retention);
  }

  lemma FlagsRead(enabled: bool, retention: bool)
    ensures Flag(enabled) == (if enabled then "true" else "false") && Flag(retention) == if retention then "true" else "false"
  {
  }

  lemma EnabledText(flag: string)
    ensures "AICRM_OPS_ENABLED" + "=" + flag == "AICRM_OPS_ENABLED=" + flag
  {
    assert "AICRM_OPS_ENABLED" + "=" == "AICRM_OPS_ENABLED=";
  }

  lemma NotificationText(flag: string)
    ensures "AICRM_OPS_NOTIFICATION_ENABLED" + "=" + flag == "AICRM_OPS_NOTIFICATION_ENABLED=" + flag
  {
    assert "AICRM_OPS_NOTIFICATION_ENABLED" + "=" == "AICRM_OPS_NOTIFICATION_ENABLED=";
  }

  lemma RetentionText(flag: string)
    ensures "AICRM_OPS_RETENTION_ENABLED" + "=" + flag == "AICRM_OPS_RETENTION_ENABLED=" + flag
  {
    assert "AICRM_OPS_RETENTION_ENABLED" + "=" == "AICRM_OPS_RETENTION_ENABLED=";
  }

  lemma ReferenceTexts()
    ensures "AICRM_OPS_TARGET_REF" + "=" + "original-ops-group" == "AICRM_OPS_TARGET_REF=original-ops-group"
    ensures "AICRM_OPS_WEBHOOK_FILE" + "=" + "/etc/aicrm/ops-feishu-webhook" == "AICRM_OPS_WEBHOOK_FILE=/etc/aicrm/ops-feishu-webhook"
  {
  }

  /** One of the five gates is set on the line. */
  predicate IsGate(line: string) {
    Classify(line).Setting?
    && (var key := Classify(line).key;
        || key == "AICRM_OPS_ENABLED" || key == "AICRM_OPS_NOTIFICATION_ENABLED" || key == "AICRM_OPS_RETENTION_ENABLED"
        || key == "AICRM_OPS_TARGET_REF" || key == "AICRM_OPS_WEBHOOK_FILE")
  }

  /** Which lines of `lines` are in `kept`: exactly those that set no gate, whole and in order. */
  ghost predicate KeptAt(kept: seq<string>, lines: seq<string>, at: seq<nat>) {
    && |at| == |kept|
    && (forall i, j | 0 <= i < j < |at| :: at[i] < at[j])
    && (forall i | 0 <= i < |at| :: at[i] < |lines| && kept[i] == lines[at[i]])
    && (forall k: nat | k < |lines| :: k in at <==> !IsGate(lines[k]))
  }

  /** Every line that sets no gate is kept, comments and blank lines among them. */
  lemma {:induction false} KeptAre(lines: seq<string>) returns (at: seq<nat>)
    ensures KeptAt(Kept(lines), lines, at)
  {
    hide *;
    if lines == [] {
      at := [];
      NothingReads();
      NothingAt();
    } else {
      var front, last := lines[..|lines| - 1], lines[|lines| - 1];
      assert lines == front + [last];
      FilterOneMore(front, last);
      GateIsManaged(last);
      var before := KeptAre(front);
      at := if IsGate(last) then before else before + [|lines| - 1];
      assert Kept(front) + [] == Kept(front);
      OneMoreAt(Kept(front), front, before, last);
    }
  }

  lemma NothingAt()
    ensures KeptAt([], [], [])
  {
  }

  lemma OneMoreAt(kept: seq<string>, lines: seq<string>, at: seq<nat>, line: string)
    requires KeptAt(kept, lines, at)
    ensures IsGate(line) ==> KeptAt(kept, lines + [line], at)
    ensures !IsGate(line) ==> KeptAt(kept + [line], lines + [line], at + [|lines|])
  {
    hide IsGate;
    assert forall k: nat | k < |lines| :: (lines + [line])[k] == lines[k];
    assert forall k: nat :: k in at + [|lines|] <==> k in at || k == |lines|;
    assert forall k: nat | k in at :: k < |lines|;
  }

  /** The bytes of a rendering: the kept lines, a missing last newline, and the gates. */
  lemma RenderedBytes(original: string, enabled: bool, retention: bool) returns (kept: seq<string>, at: seq<nat>)
    requires Rendered(original, enabled, retention).Some?
    ensures KeptAt(kept, SplitLines(original), at)
    ensures var text := Join(kept);
            Rendered(original, enabled, retention).value
            == text + (if text != "" && text[|text| - 1] != '\n' then "\n" else "") + Join(GateLines(enabled, retention))
  {
    hide Kept, KeptAt, SplitLines, Join, GateLines, Accepts;
    kept := Kept(SplitLines(original));
    at := KeptAre(SplitLines(original));
    assert Join(kept) + "" == Join(kept);
  }

  lemma GateIsManaged(line: string)
    ensures Remains(line) == if IsGate(line) then [] else [line]
  {
    hide Classify;
    assert forall key: string :: key in KEYS <==> exists i | 0 <= i < 5 :: KEYS[i] == key;
  }

  // ---------- what the shell lexer accepts ----------

  /** The inside of double quotes: a backslash takes the next character with it. */
  predicate IsInside(text: string) {
    || text == ""
    || (text[0] == '\\' && |text| >= 2 && IsInside(text[2..]))
    || (text[0] != '\\' && text[0] != '"' && IsInside(text[1..]))
  }

  /** One piece of a value: a plain character, an escaped one, or a quotation of either kind. */
  predicate IsPiece(p: string) {
    || (|p| == 1 && p[0] != '\\' && p[0] != '\'' && p[0] != '"')
    || (|p| == 2 && p[0] == '\\')
    || (|p| >= 2 && p[0] == '\'' && p[|p| - 1] == '\'' && '\'' !in p[1..|p| - 1])
    || (|p| >= 2 && p[0] == '"' && p[|p| - 1] == '"' && IsInside(p[1..|p| - 1]))
  }

  ghost predicate AreQuotations(pieces: seq<string>) {
    forall p | p in pieces :: IsPiece(p)
  }

  /** No quotation and no escape is left open. */
  ghost predicate Balanced(value: string) {
    exists pieces :: AreQuotations(pieces) && Join(pieces) == value
  }

  lemma {:induction false} SingleQuotesRun(text: string, rest: string)
    requires '\'' !in text
    ensures Lexes(text + "'" + rest, SingleQuoted) == Lexes(rest, Word)
  {
    var value := text + "'" + rest;
    if text == "" {
      assert value[1..] == rest;
    } else {
      assert value[1..] == text[1..] + "'" + rest;
      SingleQuotesRun(text[1..], rest);
    }
  }

  lemma {:induction false} DoubleQuotesRun(text: string, rest: string)
    requires IsInside(text)
    ensures Lexes(text + "\"" + rest, DoubleQuoted) == Lexes(rest, Word)
  {
    var value := text + "\"" + rest;
    if text == "" {
      assert value[1..] == rest;
    } else if text[0] == '\\' {
      assert value[1..][1..] == text[2..] + "\"" + rest;
      DoubleQuotesRun(text[2..], rest);
    } else {
      assert value[1..] == text[1..] + "\"" + rest;
      DoubleQuotesRun(text[1..], rest);
    }
  }

  lemma PieceRuns(p: string, rest: string)
    requires IsPiece(p)
    ensures Lexes(p + rest, Word) == Lexes(rest, Word)
  {
    var value := p + rest;
    if |p| == 1 {
      assert value[1..] == rest;
    } else if p[0] == '\\' {
      assert value[1..][1..] == rest;
    } else {
      var text := p[1..|p| - 1];
      if p[0] == '\'' {
        assert value[1..] == text + "'" + rest;
        SingleQuotesRun(text, rest);
      } else {
        assert value[1..] == text + "\"" + rest;
        DoubleQuotesRun(text, rest);
      }
    }
  }

  lemma {:induction false} PiecesRun(pieces: seq<string>)
    requires AreQuotations(pieces)
    ensures Lexes(Join(pieces), Word)
  {
    hide IsPiece;
    if pieces != [] {
      PiecesRun(pieces[1..]);
      PieceRuns(pieces[0], Join(pieces[1..]));
    }
  }

  lemma {:induction false} DoubleQuoteEnds(value: string) returns (k: nat)
    requires Lexes(value, DoubleQuoted)
    ensures k < |value| && value[k] == '"' && IsInside(value[..k]) && Lexes(value[k + 1..], Word)
  {
    if value[0] == '"' {
      k := 0;
    } else {
      var n := if value[0] == '\\' then 2 else 1;
      assert n == 2 ==> value[1..][1..] == value[2..];
      var m := DoubleQuoteEnds(value[n..]);
      k := n + m;
      assert value[..k][n..] == value[n..][..m] && value[n..][m + 1..] == value[k + 1..];
    }
  }

  lemma {:induction false} SingleQuoteEnds(value: string) returns (k: nat)
    requires Lexes(value, SingleQuoted)
    ensures k < |value| && value[k] == '\'' && '\'' !in value[..k] && Lexes(value[k + 1..], Word)
  {
    if value[0] == '\'' {
      k := 0;
    } else {
      var m := SingleQuoteEnds(value[1..]);
      k := 1 + m;
      assert value[..k] == [value[0]] + value[1..][..m] && value[1..][m + 1..] == value[k + 1..];
    }
  }

  /** The first piece of an accepted value. */
  lemma FirstPiece(value: string) returns (n: nat)
    requires value != "" && Lexes(value, Word)
    ensures 0 < n <= |value| && IsPiece(value[..n]) && Lexes(value[n..], Word)
  {
    if value[0] == '"' {
      var k := DoubleQuoteEnds(value[1..]);
      n := k + 2;
      assert value[..n][1..n - 1] == value[1..][..k] && value[1..][k + 1..] == value[n..];
    } else if value[0] == '\'' {
      var k := SingleQuoteEnds(value[1..]);
      n := k + 2;
      assert value[..n][1..n - 1] == value[1..][..k] && value[1..][k + 1..] == value[n..];
    } else if value[0] == '\\' {
      n := 2;
      assert value[1..][1..] == value[2..];
    } else {
      n := 1;
    }
  }

  lemma {:induction false} AcceptedIsBalanced(value: string) returns (pieces: seq<string>)
    requires Lexes(value, Word)
    ensures AreQuotations(pieces) && Join(pieces) == value
  {
    hide IsPiece, Lexes;
    if value == "" {
      pieces := [];
    } else {
      var n := FirstPiece(value);
      var rest := AcceptedIsBalanced(value[n..]);
      pieces := [value[..n]] + rest;
      assert value == value[..n] + value[n..];
    }
  }

  lemma LexesMeans(value: string)
    ensures Lexes(value, Word) <==> Balanced(value)
  {
    if Lexes(value, Word) {
      var pieces := AcceptedIsBalanced(value);
    }
    if pieces :| AreQuotations(pieces) && Join(pieces) == value {
      PiecesRun(pieces);
    }
  }

  /** A line the program understands: blank, a comment, or a name, an equals sign and a value in which
      no quote and no escape is left open. */
  ghost predicate Understood(line: string) {
    var text := Strip(line);
    || text == "" || text[0] == '#' || text[0] == ';'
    || exists eq: nat | eq < |text| ::
         && text[eq] == '=' && (forall i | 0 <= i < eq :: text[i] != '=')
         && IsKey(Strip(text[..eq])) && '\0' !in text && Balanced(text[eq + 1..])
  }

  /** The name set by an understood line that is neither blank nor a comment. */
  ghost predicate Sets(line: string, key: string) {
    var text := Strip(line);
    && text != "" && text[0] != '#' && text[0] != ';' && Understood(line)
    && exists eq: nat | eq < |text| ::
         text[eq] == '=' && (forall i | 0 <= i < eq :: text[i] != '=') && key == Strip(text[..eq])
  }

  lemma ClassifyMeans(line: string)
    ensures Classify(line) != Unsupported <==> Understood(line)
    ensures forall key :: Classify(line) == Setting(key) <==> Sets(line, key)
  {
    hide Lexes, IsKey, Strip, Balanced;
    var text := Strip(line);
    forall value
      ensures Lexes(value, Word) <==> Balanced(value)
    {
      LexesMeans(value);
    }
    var at := IndexOf(text, '=');
    assert forall eq: nat | eq < |text| && text[eq] == '=' && (forall i | 0 <= i < eq :: text[i] != '=') :: eq == at;
  }

  /** What is refused, exactly: retention without inspections, a line that is not understood, and a
      name that is set twice. */
  lemma RefusedExactly(original: string, enabled: bool, retention: bool)
    ensures var lines := SplitLines(original);
            Rendered(original, enabled, retention) == None
            <==> || (retention && !enabled)
                 || (exists l | l in lines :: !Understood(l))
                 || exists i, j, key | 0 <= i < j < |lines| :: Sets(lines[i], key) && Sets(lines[j], key)
  {
    hide Classify, Strip, SplitLines, Understood, Sets, Repeat, Settings, DistinctKeys;
    var lines := SplitLines(original);
    forall l
      ensures Classify(l) != Unsupported <==> Understood(l)
    {
      ClassifyMeans(l);
    }
    RepeatedKeys(lines);
    RepeatMeans(lines);
  }

  lemma RepeatMeans(lines: seq<string>)
    ensures Repeat(lines) <==> exists i, j, key | 0 <= i < j < |lines| :: Sets(lines[i], key) && Sets(lines[j], key)
  {
    hide Classify, Strip, Sets;
    forall l
      ensures forall key :: Classify(l) == Setting(key) <==> Sets(l, key)
    {
      ClassifyMeans(l);
    }
    if Repeat(lines) {
      var i, j :| && 0 <= i < j < |lines| && Classify(lines[i]).Setting? && Classify(lines[j]).Setting?
                  && Classify(lines[i]).key == Classify(lines[j]).key;
      var key := Classify(lines[i]).key;
      assert Sets(lines[i], key) && Sets(lines[j], key);
    }
    if i, j, key :| 0 <= i < j < |lines| && Sets(lines[i], key) && Sets(lines[j], key) {
      assert Classify(lines[i]) == Setting(key) && Classify(lines[j]) == Setting(key);
    }
  }

  lemma {:induction false} KeysAreSet(lines: seq<string>)
    ensures forall e | e in Settings(lines) :: exists l :: l in lines && Classify(l) == Setting(e.0)
    ensures forall l | l in lines && Classify(l).Setting? :: exists e :: e in Settings(lines) && e.0 == Classify(l).key
  {
    hide Classify, Strip;
    if lines != [] {
      KeysAreSet(lines[1..]);
      assert Settings(lines) == Entry(lines[0]) + Settings(lines[1..]);
      forall l | l in lines && Classify(l).Setting?
        ensures exists e :: e in Settings(lines) && e.0 == Classify(l).key
      {
        if l == lines[0] {
          assert (Classify(l).key, Strip(l)) in Settings(lines);
        } else {
          assert l in lines[1..];
        }
      }
    }
  }

  ghost predicate Repeat(lines: seq<string>) {
    exists i, j | 0 <= i < j < |lines| ::
      Classify(lines[i]).Setting? && Classify(lines[j]).Setting? && Classify(lines[i]).key == Classify(lines[j]).key
  }

  lemma {:induction false} RepeatedKeys(lines: seq<string>)
    ensures DistinctKeys(Settings(lines)) <==> !Repeat(lines)
  {
    hide Classify, Strip, Settings;
    if lines == [] {
      NothingReads();
    } else {
      RepeatedKeys(lines[1..]);
      KeysAreSet(lines[1..]);
      RepeatWithFirst(lines);
      FirstAmong(lines);
    }
  }

  lemma RepeatWithFirst(lines: seq<string>)
    requires lines != []
    ensures Repeat(lines)
            <==> || Repeat(lines[1..])
                 || (Classify(lines[0]).Setting? && exists l :: l in lines[1..] && Classify(l) == Classify(lines[0]))
  {
    hide Classify;
    assert forall i | 0 <= i < |lines| - 1 :: lines[1..][i] == lines[i + 1];
  }

  lemma FirstAmong(lines: seq<string>)
    requires lines != []
    ensures DistinctKeys(Settings(lines))
            <==> && DistinctKeys(Settings(lines[1..]))
                 && (Classify(lines[0]).Setting? ==> forall e | e in Settings(lines[1..]) :: e.0 != Classify(lines[0]).key)
  {
    hide Classify, Strip;
    var rest, all := Settings(lines[1..]), Settings(lines);
    assert all == Entry(lines[0]) + rest;
    if Classify(lines[0]).Setting? {
      HeadDiffers((Classify(lines[0]).key, Strip(lines[0])), rest);
    } else {
      assert all == rest;
    }
  }

  lemma HeadDiffers(e: (string, string), rest: seq<(string, string)>)
    ensures DistinctKeys([e] + rest) <==> DistinctKeys(rest) && forall e' | e' in rest :: e'.0 != e.0
  {
    var all := [e] + rest;
    if DistinctKeys(all) {
      forall e' | e' in rest
        ensures e'.0 != e.0
      {
        var k :| 0 <= k < |rest| && rest[k] == e';
        assert all[0].0 != all[k + 1].0;
      }
      forall i, j | 0 <= i < j < |rest|
        ensures rest[i].0 != rest[j].0
      {
        assert all[i + 1].0 != all[j + 1].0;
      }
    }
  }

  /** Only the last rendering counts. */
  lemma RenderAbsorbs(original: string, enabled: bool, retention: bool, enabled': bool, retention': bool)
    requires Rendered(original, enabled, retention).Some? && (retention' ==> enabled')
    ensures var out := Rendered(original, enabled, retention).value;
            Rendered(out, enabled', retention') == Rendered(original, enabled', retention')
  {
    hide Classify, Strip, Join, SplitLines, Settings, Kept, Finish, Supported, DistinctKeys, GateLine, Unmanaged;
    var out, prefix := Rendered(original, enabled, retention).value, PrefixOf(original);
    var gates := GateLines(enabled, retention);
    RenderedReads(original, enabled, retention);
    PrefixReads(original);
    UnmanagedKeys(Settings(SplitLines(original)));
    NothingToRemove(SplitLines(prefix));
    KeptAppend(SplitLines(prefix), gates);
    GateSettingsRead(enabled, retention, 5);
    assert gates[..5] == gates;
    JoinOfSplit(prefix);
    assert SplitLines(prefix) + [] == SplitLines(prefix);
    FinishTwice(Join(Kept(SplitLines(original))));
  }

  lemma FinishTwice(s: string)
    ensures Finish(Finish(s)) == Finish(s)
  {
  }
}
