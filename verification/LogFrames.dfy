/**
 * program_events of txverify.py: which program emitted a "Program data:" line is read off the runtime's invoke, success
 * and failed lines. Regular expressions are spelled out on strings; base64 decoding is a parameter.
 */
module LogFrames {
  import opened Wrappers

  // ---------- the patterns ----------

  const PROGRAM := "Program "
  const INVOKE := " invoke ["
  const SUCCESS := " success"
  const FAILED := " failed"
  const DATA := "Program data: "
  const LOG := "Program log: "

  predicate IsSpace(c: char) {
    '\t' <= c <= '\r' || '\U{1c}' <= c <= ' ' || c == '\U{85}' || c == '\U{a0}' || c == '\U{1680}'
        || '\U{2000}' <= c <= '\U{200a}'
    || c == '\U{2028}' || c == '\U{2029}' || c == '\U{202f}' || c == '\U{205f}' || c == '\U{3000}'
  }

  predicate IsDigit(c: char) { '0' <= c <= '9' }

  /** `\S+` from the start of `s`: the characters up to the first space. */
  function Word(s: string): (w: string)
    ensures w <= s && (forall i :: 0 <= i < |w| ==> !IsSpace(w[i])) && (|w| < |s| ==> IsSpace(s[|w|]))
  {
    if s == "" || IsSpace(s[0]) then "" else [s[0]] + Word(s[1..])
  }

  predicate Digits(s: string) { forall i :: 0 <= i < |s| ==> IsDigit(s[i]) }

  /** `\[\d+\]$` after the bracket: digits, a bracket, and the end (or a last line feed). */
  predicate Closes(s: string) {
    || (|s| >= 2 && s[|s| - 1] == ']' && Digits(s[..|s| - 1]))
    || (|s| >= 3 && s[|s| - 1] == '\n' && s[|s| - 2] == ']' && Digits(s[..|s| - 2]))
  }

  /** What follows "Program " and one word, and the word; None for any other line. */
  function AfterWord(line: string): Option<(string, string)> {
    if !(PROGRAM <= line) then None else
      var rest := line[|PROGRAM|..];
      var w := Word(rest);
      if w == "" then None else Some((w, rest[|w|..]))
  }

  /** `^Program (\S+) invoke \[\d+\]$` */
  function Invoked(line: string): Option<string> {
    match AfterWord(line)
    case None => None
    case Some((w, rest)) => if INVOKE <= rest && Closes(rest[|INVOKE|..]) then Some(w) else None
  }

  /** `^Program (\S+) (success|failed)` */
  predicate Exits(line: string) {
    match AfterWord(line)
    case None => false
    case Some((w, rest)) => SUCCESS <= rest || FAILED <= rest
  }

  predicate IsFrame(line: string) { Invoked(line).Some? || Exits(line) }

  /** str.split() */
  function Split(s: string): seq<string>
    decreases |s|
  {
    if s == "" then []
    else if IsSpace(s[0]) then Split(s[1..])
    else var w := Word(s); [w] + Split(s[|w|..])
  }

  // ---------- program_events ----------

  type Decoder<!T> = string -> Option<T>

  /** The payloads of a data line; parts that are not base64 are left out. */
  function Payloads<T>(parts: seq<string>, decode: Decoder<T>): seq<T> {
    if parts == [] then [] else
      (match decode(parts[0]) case Some(x) => [x] case None => []) + Payloads(parts[1..], decode)
  }

  datatype Scan<T> = Scan(stack: seq<string>, out: seq<T>)

  function Step<T>(s: Scan<T>, line: string, program: string, decode: Decoder<T>): Scan<T> {
    if Invoked(line).Some? then s.(stack := s.stack + [Invoked(line).value])
    else if Exits(line) then if s.stack == [] then s else s.(stack := s.stack[..|s.stack| - 1])
    else if DATA <= line && s.stack != [] && s.stack[|s.stack| - 1] == program
    then s.(out := s.out + Payloads(Split(line[|DATA|..]), decode))
    else s
  }

  function Feed<T>(s: Scan<T>, lines: seq<string>, program: string, decode: Decoder<T>): Scan<T>
    decreases |lines|
  {
    if lines == [] then s else Feed(Step(s, lines[0], program, decode), lines[1..], program, decode)
  }

  function Events<T>(logs: seq<string>, program: string, decode: Decoder<T>): seq<T> {
    Feed(Scan([], []), logs, program, decode).out
  }

  method ProgramEvents<T>(logs: seq<string>, program: string, decode: Decoder<T>) returns (out: seq<T>)
    ensures out == Events(logs, program, decode)
  {
    hide Invoked, Exits, Payloads, Split;
    var stack: seq<string> := [];
    out := [];
    for i := 0 to |logs|
      invariant Feed(Scan([], []), logs, program, decode) == Feed(Scan(stack, out), logs[i..], program, decode)
    {
      var line := logs[i];
      var m := Invoked(line);
      if m.Some? {
        stack := stack + [m.value];
      } else if Exits(line) {
        if stack != [] { stack := stack[..|stack| - 1]; }
      } else if DATA <= line && stack != [] && stack[|stack| - 1] == program {
        out := out + Payloads(Split(line[|DATA|..]), decode);
      }
    }
  }

  // ---------- what the runtime prints ----------

  /** What happens during a transaction: logs, data, other runtime lines, and calls of programs. */
  datatype Item = Log(text: string) | Data(parts: seq<string>) | Other(line: string)
                | Call(program: string, body: seq<Item>, failure: Option<string>)

  function Decimal(n: nat): (s: string)
    ensures s != "" && Digits(s)
  {
    if n < 10 then [(n + '0' as nat) as char] else Decimal(n / 10) + [(n % 10 + '0' as nat) as char]
  }

  function Join(parts: seq<string>): string {
    if parts == [] then "" else if |parts| == 1 then parts[0] else parts[0] + " " + Join(parts[1..])
  }

  function InvokeLine(program: string, depth: nat): string { PROGRAM + program + INVOKE + Decimal(depth) + "]" }

  function ExitLine(program: string, failure: Option<string>): string {
    match failure
    case None => PROGRAM + program + SUCCESS
    case Some(why) => PROGRAM + program + FAILED + ": " + why
  }

  /** The lines of `items` at invocation depth `depth`, in order. */
  function Lines(items: seq<Item>, depth: nat): seq<string> {
    if items == [] then [] else LinesOf(items[0], depth) + Lines(items[1..], depth)
  }

  function LinesOf(item: Item, depth: nat): seq<string> {
    match item
    case Log(text) => [LOG + text]
    case Data(parts) => [DATA + Join(parts)]
    case Other(line) => [line]
    case Call(program, body, failure) =>
      [InvokeLine(program, depth)] + Lines(body, depth + 1) + [ExitLine(program, failure)]
  }

  predicate IsWord(s: string) { s != "" && forall i :: 0 <= i < |s| ==> !IsSpace(s[i]) }

  /** What `program` emitted in `items`, when `here` says whether the items themselves are its own. */
  function Emitted<T>(items: seq<Item>, here: bool, program: string, decode: Decoder<T>): seq<T> {
    if items == [] then [] else EmittedBy(items[0], here, program, decode) + Emitted(items[1..], here, program, decode)
  }

  function EmittedBy<T>(item: Item, here: bool, program: string, decode: Decoder<T>): seq<T> {
    match item
    case Data(parts) => if here then Payloads(parts, decode) else []
    case Call(p, body, _) => Emitted(body, p == program, program, decode)
    case _ => []
  }

  /** Program ids and base64 parts are words, and no line but the runtime's own looks like a frame. */
  predicate Clean(items: seq<Item>) { items == [] || (CleanItem(items[0]) && Clean(items[1..])) }

  predicate CleanItem(item: Item) {
    match item
    case Log(text) => !IsFrame(LOG + text)
    case Data(parts) => !IsFrame(DATA + Join(parts)) && forall i :: 0 <= i < |parts| ==> IsWord(parts[i])
    case Other(line) => !IsFrame(line) && !(DATA <= line)
    case Call(p, body, _) => IsWord(p) && Clean(body)
  }

  // ---------- the frames are read back ----------

  predicate Starts(s: string) { s == "" || IsSpace(s[0]) }

  lemma {:induction false} WordOf(w: string, rest: string)
    requires (forall i :: 0 <= i < |w| ==> !IsSpace(w[i])) && Starts(rest)
    ensures Word(w + rest) == w
  {
    hide IsSpace;
    if w != "" {
      assert (w + rest)[1..] == w[1..] + rest;
      WordOf(w[1..], rest);
    } else {
      assert w + rest == rest;
    }
  }

  lemma AfterWordOf(w: string, rest: string)
    requires IsWord(w) && Starts(rest)
    ensures AfterWord(PROGRAM + w + rest) == Some((w, rest))
  {
    hide IsSpace, Word;
    var line := PROGRAM + w + rest;
    assert line[|PROGRAM|..] == w + rest;
    WordOf(w, rest);
    assert (w + rest)[|w|..] == rest;
  }

  lemma InvokeLineReads(program: string, depth: nat)
    requires IsWord(program)
    ensures Invoked(InvokeLine(program, depth)) == Some(program)
  {
    hide IsSpace, Word, Decimal, AfterWord;
    var rest := INVOKE + (Decimal(depth) + "]");
    assert InvokeLine(program, depth) == PROGRAM + program + rest;
    assert IsSpace(rest[0]) by { SpaceIsSpace(); }
    AfterWordOf(program, rest);
    assert rest[|INVOKE|..] == Decimal(depth) + "]";
    assert (Decimal(depth) + "]")[..|Decimal(depth)|] == Decimal(depth);
  }

  lemma SpaceIsSpace()
    ensures IsSpace(' ')
  {}

  lemma ExitLineReads(program: string, failure: Option<string>)
    requires IsWord(program)
    ensures Invoked(ExitLine(program, failure)) == None && Exits(ExitLine(program, failure))
  {
    hide IsSpace, Word, AfterWord;
    var rest := match failure case None => SUCCESS case Some(why) => FAILED + (": " + why);
    assert ExitLine(program, failure) == PROGRAM + program + rest;
    assert IsSpace(rest[0]) by { SpaceIsSpace(); }
    AfterWordOf(program, rest);
    assert rest[1] != INVOKE[1];
  }

  lemma {:induction false} SplitJoin(parts: seq<string>)
    requires forall i :: 0 <= i < |parts| ==> IsWord(parts[i])
    ensures Split(Join(parts)) == parts
  {
    hide IsSpace, Word;
    if |parts| == 1 {
      WordOf(parts[0], "");
      assert parts[0] + "" == parts[0] && parts[0][|parts[0]|..] == "";
    } else if |parts| > 1 {
      var rest := " " + Join(parts[1..]);
      SpaceIsSpace();
      WordOf(parts[0], rest);
      assert Join(parts) == parts[0] + rest;
      assert (parts[0] + rest)[|parts[0]|..] == rest && rest[1..] == Join(parts[1..]);
      assert Split(rest) == Split(rest[1..]);
      SplitJoin(parts[1..]);
    }
  }

  lemma {:induction false} FeedAppend<T>(s: Scan<T>, a: seq<string>, b: seq<string>, program: string,
      decode: Decoder<T>)
    ensures Feed(s, a + b, program, decode) == Feed(Feed(s, a, program, decode), b, program, decode)
    decreases |a|
  {
    hide Step;
    if a == [] {
      assert a + b == b;
    } else {
      assert (a + b)[1..] == a[1..] + b;
      FeedAppend(Step(s, a[0], program, decode), a[1..], b, program, decode);
    }
  }

  lemma FeedOne<T>(s: Scan<T>, line: string, program: string, decode: Decoder<T>)
    ensures Feed(s, [line], program, decode) == Step(s, line, program, decode)
  {
    hide Step;
    assert [line][1..] == [];
  }

  predicate Here(stack: seq<string>, program: string) { stack != [] && stack[|stack| - 1] == program }

  /** A log line is not a data line. */
  lemma LogIsNotData(text: string)
    ensures !(DATA <= LOG + text)
  {
    assert (LOG + text)[8] == 'l' && DATA[8] == 'd';
  }

  /** The scan leaves the stack as it was and appends exactly what the items emitted. */
  lemma {:induction false} FeedLines<T>(s: Scan<T>, items: seq<Item>, depth: nat, program: string, decode: Decoder<T>)
    requires Clean(items)
    ensures Feed(s, Lines(items, depth), program, decode)
        == s.(out := s.out + Emitted(items, Here(s.stack, program), program, decode))
    decreases items
  {
    hide Step, CleanItem, LinesOf, EmittedBy;
    if items == [] {
      assert s.out + [] == s.out;
    } else {
      hide Feed;
      var own := EmittedBy(items[0], Here(s.stack, program), program, decode);
      FeedItem(s, items[0], depth, program, decode);
      FeedAppend(s, LinesOf(items[0], depth), Lines(items[1..], depth), program, decode);
      FeedLines(s.(out := s.out + own), items[1..], depth, program, decode);
      Regroup(s.out, own, Emitted(items[1..], Here(s.stack, program), program, decode));
    }
  }

  lemma Regroup<T>(a: seq<T>, b: seq<T>, c: seq<T>)
    ensures a + b + c == a + (b + c)
  {}

  lemma {:induction false} FeedItem<T>(s: Scan<T>, item: Item, depth: nat, program: string, decode: Decoder<T>)
    requires CleanItem(item)
    ensures Feed(s, LinesOf(item, depth), program, decode)
        == s.(out := s.out + EmittedBy(item, Here(s.stack, program), program, decode))
    decreases item
  {
    hide Payloads, Feed, Invoked, Exits, Split, InvokeLine, ExitLine;
    match item {
      case Log(text) =>
        LogIsNotData(text);
        FeedOne(s, LOG + text, program, decode);
        assert s.out + [] == s.out;
      case Data(parts) =>
        FeedOne(s, DATA + Join(parts), program, decode);
        SplitJoin(parts);
        assert (DATA + Join(parts))[|DATA|..] == Join(parts);
        assert s.out + [] == s.out;
      case Other(line) =>
        FeedOne(s, line, program, decode);
        assert s.out + [] == s.out;
      case Call(p, body, failure) =>
        FeedLines(Scan(s.stack + [p], s.out), body, depth + 1, program, decode);
        FeedCall(s, p, body, failure, depth, program, decode);
    }
  }

  lemma FeedCall<T>(s: Scan<T>, p: string, body: seq<Item>, failure: Option<string>, depth: nat, program: string,
      decode: Decoder<T>)
    requires IsWord(p)
    requires var inner := Scan(s.stack + [p], s.out);
      Feed(inner, Lines(body, depth + 1), program, decode)
          == inner.(out := s.out + Emitted(body, p == program, program, decode))
    ensures Feed(s, [InvokeLine(p, depth)] + Lines(body, depth + 1) + [ExitLine(p, failure)], program, decode)
         == s.(out := s.out + Emitted(body, p == program, program, decode))
  {
    hide Feed, Invoked, Exits, InvokeLine, ExitLine, Lines, Emitted;
    var enter, leave := [InvokeLine(p, depth)], [ExitLine(p, failure)];
    InvokeLineReads(p, depth);
    ExitLineReads(p, failure);
    FeedOne(s, InvokeLine(p, depth), program, decode);
    var done := Scan(s.stack + [p], s.out + Emitted(body, p == program, program, decode));
    FeedOne(done, ExitLine(p, failure), program, decode);
    FeedAppend(s, enter, Lines(body, depth + 1), program, decode);
    FeedAppend(s, enter + Lines(body, depth + 1), leave, program, decode);
    assert done.stack[..|done.stack| - 1] == s.stack;
  }

  /**
   * For every call forest of any depth, program_events returns exactly the payloads that `program` itself emitted, in
   * order, when no line but the runtime's own reads as a frame.
   */
  lemma EventsAreEmitted<T>(items: seq<Item>, program: string, decode: Decoder<T>)
    requires Clean(items)
    ensures Events(Lines(items, 1), program, decode) == Emitted(items, false, program, decode)
  {
    hide Feed, Step;
    FeedLines(Scan([], []), items, 1, program, decode);
  }

  // ---------- when a log line breaks the attribution ----------

  /** A program can write a line that reads as a frame: exactly by logging one of these texts. */
  predicate Forges(text: string) {
    "success" <= text || "failed" <= text || ("invoke [" <= text && Closes(text[8..]))
  }

  lemma ForgesIff(text: string)
    ensures IsFrame(LOG + text) <==> Forges(text)
  {
    hide IsSpace, Word, AfterWord, Closes;
    var rest := " " + text;
    assert LOG + text == PROGRAM + "log:" + rest;
    LogWord();
    AfterWordOf("log:", rest);
    assert rest[1..] == text;
    Shifted("success", text);
    Shifted("failed", text);
    Shifted("invoke [", text);
    assert SUCCESS == " " + "success" && FAILED == " " + "failed" && INVOKE == " " + "invoke [";
    if INVOKE <= rest { assert rest[|INVOKE|..] == text[8..]; }
  }

  lemma LogWord()
    ensures IsWord("log:") && IsSpace(' ')
  {}

  lemma Shifted(prefix: string, text: string)
    ensures " " + prefix <= " " + text <==> prefix <= text
  {
    assert (" " + text)[1..] == text && (" " + prefix)[1..] == prefix;
    if " " + prefix <= " " + text { assert (" " + text)[..|prefix| + 1][1..] == text[..|prefix|]; }
  }

  /**
   * The claim that programs cannot write such lines is wrong: a program that logs `text` and then emits an event loses
   * the event exactly when the text is one of those.
   */
  lemma LogHarmlessIff<T(!new)>(text: string, program: string, part: string, decode: Decoder<T>)
    requires IsWord(program) && program != "log:" && IsWord(part) && !IsFrame(DATA + part) && decode(part).Some?
    ensures var items := [Call(program, [Log(text), Data([part])], None)];
      Events(Lines(items, 1), program, decode) == Emitted(items, false, program, decode) <==> !Forges(text)
  {
    ForgesIff(text);
    var items := [Call(program, [Log(text), Data([part])], None)];
    if !Forges(text) {
      CleanCall(text, program, part);
      EventsAreEmitted(items, program, decode);
    } else {
      ForgedEvents(text, program, part, decode);
    }
  }

  lemma CleanCall(text: string, program: string, part: string)
    requires IsWord(program) && IsWord(part) && !IsFrame(DATA + part) && !IsFrame(LOG + text)
    ensures Clean([Call(program, [Log(text), Data([part])], None)])
  {
    hide IsFrame, IsWord;
    var body := [Log(text), Data([part])];
    assert Join([part]) == part;
    assert CleanItem(Log(text)) && CleanItem(Data([part]));
    assert body[1..] == [Data([part])] && body[1..][1..] == [];
    assert Clean(body[1..]) && Clean(body);
    assert [Call(program, body, None)][1..] == [];
    assert CleanItem(Call(program, body, None));
  }

  lemma FeedCons<T>(s: Scan<T>, line: string, rest: seq<string>, program: string, decode: Decoder<T>)
    ensures Feed(s, [line] + rest, program, decode) == Feed(Step(s, line, program, decode), rest, program, decode)
  {
    hide Step;
    assert ([line] + rest)[1..] == rest;
  }

  lemma ForgedEvents<T(!new)>(text: string, program: string, part: string, decode: Decoder<T>)
    requires IsWord(program) && program != "log:" && IsWord(part) && !IsFrame(DATA + part) && decode(part).Some?
        && IsFrame(LOG + text)
    ensures var items := [Call(program, [Log(text), Data([part])], None)];
      Events(Lines(items, 1), program, decode) == [] && Emitted(items, false, program, decode) == [decode(part).value]
  {
    hide IsSpace, Word, AfterWord, Closes, Feed, InvokeLine, ExitLine, Invoked, Exits, Split;
    ForgedLines(text, program, part, decode);
    var enter, leave := InvokeLine(program, 1), ExitLine(program, None);
    InvokeLineReads(program, 1);
    ExitLineReads(program, None);
    ForgedWord(text);
    LogIsNotData(text);
    var s0: Scan<T> := Scan([], []);
    var s1 := Step(s0, enter, program, decode);
    var s2 := Step(s1, LOG + text, program, decode);
    var s3 := Step(s2, DATA + part, program, decode);
    assert s1.stack == [program];
    if Invoked(LOG + text).Some? {
      assert s2.stack[|s2.stack| - 1] == "log:";
    } else {
      assert s2.stack == [];
    }
    assert s3 == s2;
    FeedCons(s0, enter, [LOG + text] + ([DATA + part] + [leave]), program, decode);
    FeedCons(s1, LOG + text, [DATA + part] + [leave], program, decode);
    FeedCons(s2, DATA + part, [leave], program, decode);
    FeedOne(s3, leave, program, decode);
  }

  lemma ForgedWord(text: string)
    ensures Invoked(LOG + text).Some? ==> Invoked(LOG + text).value == "log:"
  {
    hide IsSpace, Word, AfterWord, Closes;
    LogWord();
    assert LOG + text == PROGRAM + "log:" + (" " + text);
    AfterWordOf("log:", " " + text);
  }

  lemma ForgedLines<T(!new)>(text: string, program: string, part: string, decode: Decoder<T>)
    requires decode(part).Some?
    ensures var items := [Call(program, [Log(text), Data([part])], None)];
      && Lines(items, 1) == [InvokeLine(program, 1)] + ([LOG + text] + ([DATA + part] + [ExitLine(program, None)]))
      && Emitted(items, false, program, decode) == [decode(part).value]
  {
    hide InvokeLine, ExitLine;
    var body := [Log(text), Data([part])];
    var items := [Call(program, body, None)];
    assert body[1..] == [Data([part])] && body[1..][1..] == [] && items[1..] == [];
    assert Join([part]) == part;
    assert Lines(body[1..], 2) == [DATA + part] + [];
    assert Lines(body, 2) == [LOG + text] + ([DATA + part] + []);
    assert Lines(items, 1) == LinesOf(items[0], 1) + [];
    assert [part][1..] == [] && Payloads([part], decode) == [decode(part).value] + [];
    assert Emitted(body[1..], true, program, decode) == [decode(part).value] + [];
    assert Emitted(body, true, program, decode) == [] + Emitted(body[1..], true, program, decode);
    assert Emitted(items, false, program, decode) == Emitted(body, true, program, decode) + [];
  }

  // ---------- the lines as they are printed ----------

  /** What the runtime prints around a call, and the lines of a program's logs and data. */
  lemma LinesAre(program: string, body: seq<Item>, failure: Option<string>, depth: nat, text: string,
      parts: seq<string>)
    ensures LinesOf(Call(program, body, failure), depth)
         == ["Program " + program + " invoke [" + Decimal(depth) + "]"] + Lines(body, depth + 1)
            + [match failure
               case None => "Program " + program + " success"
               case Some(why) => "Program " + program + " failed" + ": " + why]
    ensures LinesOf(Log(text), depth) == ["Program log: " + text]
    ensures LinesOf(Data(parts), depth) == ["Program data: " + Join(parts)]
  {}

  /** Depths are printed in decimal. */
  lemma {:induction false} DecimalIs(n: nat)
    ensures n < 10 ==> |Decimal(n)| == 1 && Decimal(n)[0] as int == '0' as int + n
    ensures n >= 10 ==> |Decimal(n)| >= 2 && Decimal(n)[..|Decimal(n)| - 1] == Decimal(n / 10)
                        && Decimal(n)[|Decimal(n)| - 1] as int == '0' as int + n % 10
  {}

  // ---------- the lines as they are read ----------

  /** White space, by number: Python's `\s` and str.split(). */
  lemma SpaceIff(c: char)
    ensures IsSpace(c) <==> var n := c as int;
      || 9 <= n <= 13 || 28 <= n <= 32 || n == 133 || n == 160 || n == 5760 || 8192 <= n <= 8202
      || n == 8232 || n == 8233 || n == 8239 || n == 8287 || n == 12288
  {}

  /** `d` is one or more digits, and `s` is `d`, a bracket and `tail`: nothing or a line feed. */
  predicate Bracketed(s: string, d: string, tail: string) {
    && d != "" && (forall i :: 0 <= i < |d| ==> '0' <= d[i] <= '9')
    && (tail == "" || tail == "\n") && s == d + "]" + tail
  }

  lemma ClosesIff(s: string)
    ensures Closes(s) <==> exists d, tail :: Bracketed(s, d, tail)
  {
    if |s| >= 2 && s[|s| - 1] == ']' && Digits(s[..|s| - 1]) { assert Bracketed(s, s[..|s| - 1], ""); }
    if |s| >= 3 && s[|s| - 1] == '\n' && s[|s| - 2] == ']' && Digits(s[..|s| - 2]) {
      assert Bracketed(s, s[..|s| - 2], "\n");
    }
    if d, tail :| Bracketed(s, d, tail) { assert s[..|d|] == d; }
  }

  lemma AfterWordIff(line: string, w: string, rest: string)
    ensures AfterWord(line) == Some((w, rest)) <==> IsWord(w) && Starts(rest) && line == "Program " + w + rest
  {
    hide IsSpace, Word;
    if IsWord(w) && Starts(rest) && line == PROGRAM + w + rest { AfterWordOf(w, rest); }
    if AfterWord(line) == Some((w, rest)) {
      assert line == PROGRAM + line[|PROGRAM|..];
      assert line[|PROGRAM|..] == w + rest;
    }
  }

  /** A line reads as the invocation of `p` exactly when it is one: the word `p`, and a depth in brackets. */
  lemma InvokedIff(line: string, p: string)
    ensures Invoked(line) == Some(p)
        <==> IsWord(p) && exists s, d, tail :: Bracketed(s, d, tail) && line == "Program " + p + (" invoke [" + s)
  {
    hide IsSpace, Word, AfterWord, Closes, Bracketed, IsWord;
    SpaceIsSpace();
    if Invoked(line) == Some(p) {
      var rest := AfterWord(line).value.1;
      AfterWordIff(line, p, rest);
      ClosesIff(rest[|INVOKE|..]);
      var d, tail :| Bracketed(rest[|INVOKE|..], d, tail);
      assert rest == " invoke [" + rest[|INVOKE|..];
    }
    if s, d, tail :| IsWord(p) && Bracketed(s, d, tail) && line == "Program " + p + (" invoke [" + s) {
      var rest := " invoke [" + s;
      AfterWordIff(line, p, rest);
      assert rest[|INVOKE|..] == s;
      ClosesIff(s);
    }
  }

  predicate ExitText(line: string, p: string, rest: string) {
    IsWord(p) && (line == "Program " + p + (" success" + rest) || line == "Program " + p + (" failed" + rest))
  }

  /**
   * A line reads as an exit exactly when `success` or `failed` follows "Program " and one word, whatever comes behind.
   */
  lemma ExitsIff(line: string)
    ensures Exits(line) <==> exists p, rest :: ExitText(line, p, rest)
  {
    hide IsSpace, Word, AfterWord, IsWord;
    SpaceIsSpace();
    if Exits(line) {
      var (w, rest) := AfterWord(line).value;
      AfterWordIff(line, w, rest);
      if SUCCESS <= rest {
        assert rest == SUCCESS + rest[|SUCCESS|..];
        assert ExitText(line, w, rest[|SUCCESS|..]);
      } else {
        assert rest == FAILED + rest[|FAILED|..];
        assert ExitText(line, w, rest[|FAILED|..]);
      }
    }
    if p, rest :| ExitText(line, p, rest) {
      AfterWordIff(line, p, " success" + rest);
      AfterWordIff(line, p, " failed" + rest);
    }
  }
}
