/**
 The command parser of a client connection (cae/cae.cpp): bytes arrive in chunks of any size
 and are gathered into tokens and commands, and a command's tokens are echoed with a status.
 */
module CommandParser {
  import opened Sequences

  const MAX_ARGS := 10
  const MAX_LENGTH := 256
  const ECHO_LENGTH := MAX_LENGTH + 2

  type Tokens = seq<string>

  predicate IsGraph(c: char) { 33 <= c as int <= 126 }

  /** A character that a token can hold. */
  predicate InToken(c: char) { IsGraph(c) && c != '!' }

  predicate IsToken(t: string) { forall c <- t :: InToken(c) }

  // ---------------------------------------------------------------- the parser, step by step

  /** `done` are the finished tokens of the command being read, `commands` the ones dispatched. */
  datatype Parser = Parser(done: Tokens, current: string, closed: bool, commands: seq<Tokens>)

  const FRESH := Parser([], "", false, [])

  function Feed(p: Parser, c: char): Parser {
    if p.closed then p
    else if c == ' ' then p.(done := p.done + [p.current], current := "")
    else if c == '!' then Dispatched(p)
    else if IsGraph(c) then p.(current := p.current + [c])
    else p
  }

  /** What each byte does, by its code: a space ends a token and an exclamation mark a command,
      the other printable characters are taken into the token, and all else is ignored. */
  lemma {:induction false} FeedByCode(p: Parser, c: char)
    ensures Feed(p, c) ==
            if p.closed then p
            else if c as int == 32 then Parser(p.done + [p.current], "", false, p.commands)
            else if c as int == 33 then
              Parser([], "", (if p.done == [] then p.current else p.done[0]) == "DC",
                     p.commands + [p.done + [p.current]])
            else if 34 <= c as int <= 126 then p.(current := p.current + [c])
            else p
  {
  }

  /** A token is made of these characters. */
  lemma {:induction false} TokenByCode(t: string)
    ensures IsToken(t) <==> forall i :: 0 <= i < |t| ==> 34 <= t[i] as int <= 126
  {
    if IsToken(t) {
      forall i | 0 <= i < |t|
        ensures 34 <= t[i] as int <= 126
      {
        assert InToken(t[i]);
      }
    }
  }

  /** A command is complete. The command DC drops the connection. */
  function Dispatched(p: Parser): Parser {
    var tokens := p.done + [p.current];
    Parser([], "", tokens[0] == "DC", p.commands + [tokens])
  }

  function Run(p: Parser, bytes: string): Parser {
    if bytes == "" then p else Feed(Run(p, bytes[..|bytes| - 1]), bytes[|bytes| - 1])
  }

  function RunChunks(p: Parser, chunks: seq<string>): Parser {
    if chunks == [] then p else Run(RunChunks(p, chunks[..|chunks| - 1]), chunks[|chunks| - 1])
  }

  lemma {:induction false} RunAppend(p: Parser, a: string, b: string)
    ensures Run(p, a + b) == Run(Run(p, a), b)
  {
    if b == "" {
      assert a + b == a;
    } else {
      var b' := b[..|b| - 1];
      assert (a + b)[..|a + b| - 1] == a + b';
      RunAppend(p, a, b');
    }
  }

  /** How the bytes are split into chunks makes no difference. */
  lemma {:induction false} ChunksDoNotMatter(p: Parser, chunks: seq<string>)
    ensures RunChunks(p, chunks) == Run(p, Concat(chunks))
  {
    if chunks != [] {
      var rest := chunks[..|chunks| - 1];
      ChunksDoNotMatter(p, rest);
      RunAppend(p, Concat(rest), chunks[|chunks| - 1]);
    }
  }

  // ---------------------------------------------------------------- what a stream of bytes says

  /** The pieces of a text between separators. */
  function Split(s: string, separator: char): (r: seq<string>)
    ensures |r| > 0
  {
    if s == "" then [""]
    else
      var r := Split(s[..|s| - 1], separator);
      var c := s[|s| - 1];
      if c == separator then r + [""] else r[..|r| - 1] + [r[|r| - 1] + [c]]
  }

  function Joined(pieces: seq<string>, separator: char): string
    requires |pieces| > 0
  {
    if |pieces| == 1 then pieces[0]
    else Joined(pieces[..|pieces| - 1], separator) + [separator] + pieces[|pieces| - 1]
  }

  /** Splitting undoes joining: the pieces hold no separator and join to the text. */
  lemma {:induction false} SplitJoins(s: string, separator: char)
    ensures Joined(Split(s, separator), separator) == s
    ensures forall piece <- Split(s, separator) :: separator !in piece
  {
    if s != "" {
      var s', c := s[..|s| - 1], s[|s| - 1];
      var r := Split(s', separator);
      SplitJoins(s', separator);
      assert s == s' + [c];
      if c == separator {
        assert (r + [""])[..|r|] == r;
      } else {
        var last := r[|r| - 1];
        var t := r[..|r| - 1] + [last + [c]];
        assert t[..|t| - 1] == r[..|r| - 1];
        if |r| > 1 {
          assert Joined(t, separator) == Joined(r[..|r| - 1], separator) + [separator] + (last + [c]);
        }
      }
    }
  }

  /** The characters that the parser does not ignore. */
  function Kept(s: string): string {
    if s == "" then ""
    else Kept(s[..|s| - 1]) + if s[|s| - 1] == ' ' || IsGraph(s[|s| - 1]) then [s[|s| - 1]] else []
  }

  /** The tokens of a command's text. */
  function TokensOf(text: string): (r: Tokens)
    ensures |r| > 0
  {
    Split(Kept(text), ' ')
  }

  /** Has the connection been dropped by the last of these commands? */
  predicate Dropped(commands: seq<Tokens>) {
    |commands| > 0 && |commands[|commands| - 1]| > 0 && commands[|commands| - 1][0] == "DC"
  }

  /** The commands in texts of which each but the last is complete, up to the first DC. */
  function Said(texts: seq<string>): seq<Tokens> {
    if |texts| <= 1 then []
    else
      var before := Said(texts[..|texts| - 1]);
      if Dropped(before) then before else before + [TokensOf(texts[|texts| - 2])]
  }

  lemma {:induction false} SaidIgnoresLast(texts: seq<string>, last: string)
    requires |texts| > 0
    ensures Said(texts[..|texts| - 1] + [last]) == Said(texts)
  {
    var other := texts[..|texts| - 1] + [last];
    if |texts| > 1 {
      assert other[..|other| - 1] == texts[..|texts| - 1];
      assert other[|other| - 2] == texts[|texts| - 2];
    }
  }

  lemma TokensGrow(text: string, c: char)
    ensures TokensOf(text + [c]) == (
              var r := TokensOf(text);
              if c == ' ' then r + [""]
              else if IsGraph(c) then r[..|r| - 1] + [r[|r| - 1] + [c]]
              else r)
  {
    assert (text + [c])[..|text|] == text;
    if c == ' ' || IsGraph(c) {
      assert (Kept(text) + [c])[..|Kept(text)|] == Kept(text);
    } else {
      assert Kept(text + [c]) == Kept(text);
    }
  }

  /** The parser has dispatched what the texts say and holds the tokens of the last one. */
  predicate Hears(p: Parser, texts: seq<string>)
    requires |texts| > 0
  {
    && p.commands == Said(texts)
    && p.closed == Dropped(p.commands)
    && p.done + [p.current] == if p.closed then [""] else TokensOf(texts[|texts| - 1])
  }

  lemma HearsMark(p: Parser, texts: seq<string>)
    requires |texts| > 0 && Hears(p, texts)
    ensures Hears(Feed(p, '!'), texts + [""])
  {
    var texts' := texts + [""];
    assert texts'[..|texts'| - 1] == texts;
    assert texts'[|texts'| - 2] == texts[|texts| - 1];
    assert TokensOf("") == [""];
    assert [] + [""] == [""];
  }

  lemma HearsOther(p: Parser, texts: seq<string>, c: char)
    requires |texts| > 0 && Hears(p, texts) && c != '!'
    ensures Hears(Feed(p, c), texts[..|texts| - 1] + [texts[|texts| - 1] + [c]])
  {
    var last := texts[|texts| - 1];
    SaidIgnoresLast(texts, last + [c]);
    if !p.closed {
      TokensGrow(last, c);
      var r := TokensOf(last);
      assert r == p.done + [p.current];
      assert p.current == r[|r| - 1] && p.done == r[..|r| - 1];
    }
  }

  /** The parser dispatches exactly the tokens of every text that an exclamation mark ends, in
      order, up to the first DC; what it holds besides is the tokens of the text unfinished. */
  lemma {:induction false} ParserHearsWhatIsSaid(bytes: string)
    ensures Hears(Run(FRESH, bytes), Split(bytes, '!'))
  {
    if bytes == "" {
      assert TokensOf("") == [""];
      assert [] + [""] == [""];
    } else {
      var b, c := bytes[..|bytes| - 1], bytes[|bytes| - 1];
      ParserHearsWhatIsSaid(b);
      var texts := Split(b, '!');
      if c == '!' {
        HearsMark(Run(FRESH, b), texts);
      } else {
        HearsOther(Run(FRESH, b), texts, c);
      }
    }
  }

  // ---------------------------------------------------------------- limits

  /** The connection's buffers have room for the command being read. */
  predicate Within(p: Parser) { |p.done| < MAX_ARGS && |p.current| < MAX_LENGTH }

  /** The buffers have room throughout. */
  predicate WithinRun(p: Parser, bytes: string) {
    Within(Run(p, bytes)) && (bytes == "" || WithinRun(p, bytes[..|bytes| - 1]))
  }

  predicate FitsText(text: string) {
    |TokensOf(text)| <= MAX_ARGS && forall t <- TokensOf(text) :: |t| < MAX_LENGTH
  }

  /** The texts that the parser listens to: none after one that drops the connection. */
  function Heard(texts: seq<string>): seq<string> {
    if |texts| <= 1 then texts
    else if Dropped(Said(texts)) then Heard(texts[..|texts| - 1])
    else texts
  }

  lemma HeardAll(texts: seq<string>)
    requires !Dropped(Said(texts))
    ensures Heard(texts) == texts
  {
  }

  lemma HeardAfterDrop(texts: seq<string>, last: string)
    requires |texts| > 0 && Dropped(Said(texts))
    ensures Heard(texts + [last]) == Heard(texts) == Heard(texts[..|texts| - 1] + [last])
  {
    assert (texts + [last])[..|texts|] == texts;
    assert (texts[..|texts| - 1] + [last])[..|texts| - 1] == texts[..|texts| - 1];
    SaidIgnoresLast(texts, last);
  }

  lemma GrowthFits(text: string, c: char)
    ensures var r := TokensOf(text + [c]);
            FitsText(text + [c]) <==> FitsText(text) && |r| <= MAX_ARGS && |r[|r| - 1]| < MAX_LENGTH
  {
    TokensGrow(text, c);
    var r, r' := TokensOf(text), TokensOf(text + [c]);
    assert FitsText(text + [c]) ==> FitsText(text) by {
      if FitsText(text + [c]) {
        assert |r| <= |r'|;
        forall t | t in r
          ensures |t| < MAX_LENGTH
        {
          var k :| 0 <= k < |r| && r[k] == t;
          assert |r[k]| <= |r'[k]|;
        }
      }
    }
  }

  lemma SameTexts(texts: seq<string>, texts': seq<string>)
    requires |texts| > 0 && |texts'| == |texts| && texts'[..|texts| - 1] == texts[..|texts| - 1]
    requires FitsText(texts'[|texts| - 1]) ==> FitsText(texts[|texts| - 1])
    ensures AllFit(texts') <==>
            AllFit(texts) && FitsText(texts'[|texts| - 1])
  {
    var n := |texts| - 1;
    assert texts == texts[..n] + [texts[n]];
    assert texts' == texts[..n] + [texts'[n]];
  }

  predicate AllFit(texts: seq<string>) { forall text <- texts :: FitsText(text) }

  lemma WithinAfterMark(p: Parser, texts: seq<string>)
    requires |texts| > 0 && Hears(p, texts) && !p.closed
    ensures Within(Feed(p, '!'))
    ensures AllFit(Heard(texts + [""])) <==> AllFit(Heard(texts))
  {
    HeardAll(texts);
    assert (texts + [""])[..|texts|] == texts;
    assert TokensOf("") == [""];
    assert FitsText("");
    if !Dropped(Said(texts + [""])) {
      HeardAll(texts + [""]);
    }
  }

  lemma HearsLast(p: Parser, texts: seq<string>, c: char)
    requires |texts| > 0 && Hears(p, texts) && !p.closed && c != '!'
    ensures Feed(p, c).done + [Feed(p, c).current] == TokensOf(texts[|texts| - 1] + [c])
  {
    HearsOther(p, texts, c);
    assert !Feed(p, c).closed;
  }

  lemma WithinIsFits(p: Parser, text: string)
    requires p.done + [p.current] == TokensOf(text)
    ensures Within(p) <==> |TokensOf(text)| <= MAX_ARGS && |TokensOf(text)[|TokensOf(text)| - 1]| < MAX_LENGTH
  {
  }

  /** While the connection stands, a further character makes the last text longer. */
  lemma HeardLonger(p: Parser, texts: seq<string>, c: char)
    requires |texts| > 0 && Hears(p, texts) && !p.closed && c != '!'
    ensures var texts' := texts[..|texts| - 1] + [texts[|texts| - 1] + [c]];
            Heard(texts') == texts' && Heard(texts) == texts
  {
    HearsOther(p, texts, c);
    assert !Feed(p, c).closed;
    HeardAll(texts);
    HeardAll(texts[..|texts| - 1] + [texts[|texts| - 1] + [c]]);
  }

  lemma WithinAfterOther(p: Parser, texts: seq<string>, c: char)
    requires |texts| > 0 && Hears(p, texts) && !p.closed && c != '!'
    ensures AllFit(Heard(texts[..|texts| - 1] + [texts[|texts| - 1] + [c]]))
            <==> AllFit(Heard(texts)) && Within(Feed(p, c))
  {
    var last := texts[|texts| - 1];
    var texts' := texts[..|texts| - 1] + [last + [c]];
    HeardLonger(p, texts, c);
    GrowthFits(last, c);
    HearsLast(p, texts, c);
    WithinIsFits(Feed(p, c), last + [c]);
    SameTexts(texts, texts');
  }

  lemma WithinAfterDrop(p: Parser, texts: seq<string>, c: char)
    requires |texts| > 0 && Hears(p, texts) && p.closed
    ensures Within(Feed(p, c))
    ensures Heard(texts + [""]) == Heard(texts) == Heard(texts[..|texts| - 1] + [texts[|texts| - 1] + [c]])
  {
    HeardAfterDrop(texts, "");
    HeardAfterDrop(texts, texts[|texts| - 1] + [c]);
    assert |p.done + [p.current]| == 1;
    assert p.current == (p.done + [p.current])[0];
  }

  /** The texts with one more character read. */
  function Further(texts: seq<string>, c: char): seq<string>
    requires |texts| > 0
  {
    if c == '!' then texts + [""] else texts[..|texts| - 1] + [texts[|texts| - 1] + [c]]
  }

  lemma SplitFurther(b: string, c: char)
    ensures Split(b + [c], '!') == Further(Split(b, '!'), c)
    ensures Run(FRESH, b + [c]) == Feed(Run(FRESH, b), c)
  {
    assert (b + [c])[..|b|] == b;
  }

  lemma WithinStep(p: Parser, texts: seq<string>, c: char)
    requires |texts| > 0 && Hears(p, texts)
    ensures AllFit(Heard(Further(texts, c))) <==> AllFit(Heard(texts)) && Within(Feed(p, c))
  {
    if p.closed {
      WithinAfterDrop(p, texts, c);
    } else if c == '!' {
      WithinAfterMark(p, texts);
    } else {
      WithinAfterOther(p, texts, c);
    }
  }

  /** The buffers have room throughout exactly when every text heard has at most ten tokens, of
      fewer than 256 characters. */
  lemma {:induction false} WithinExactly(bytes: string)
    ensures WithinRun(FRESH, bytes) <==> AllFit(Heard(Split(bytes, '!')))
  {
    if bytes == "" {
      assert TokensOf("") == [""];
    } else {
      var b, c := bytes[..|bytes| - 1], bytes[|bytes| - 1];
      assert bytes == b + [c];
      WithinExactly(b);
      ParserHearsWhatIsSaid(b);
      SplitFurther(b, c);
      WithinStep(Run(FRESH, b), Split(b, '!'), c);
    }
  }

  // ---------------------------------------------------------------- echo

  /** The tokens, each with a space behind it. */
  function Spaced(tokens: Tokens): string {
    if tokens == [] then "" else Spaced(tokens[..|tokens| - 1]) + tokens[|tokens| - 1] + " "
  }

  function Echo(tokens: Tokens, status: char): string {
    Spaced(tokens) + [status] + "!"
  }

  lemma {:induction false} TokenIsRead(p: Parser, t: string)
    requires !p.closed && IsToken(t)
    ensures Run(p, t) == p.(current := p.current + t)
  {
    if t == "" {
      assert p.current + t == p.current;
    } else {
      var t', c := t[..|t| - 1], t[|t| - 1];
      assert t == t' + [c];
      TokenIsRead(p, t');
      assert InToken(t[|t| - 1]);
      assert p.current + t' + [c] == p.current + t;
    }
  }

  lemma FeedOne(p: Parser, c: char)
    ensures Run(p, [c]) == Feed(p, c)
  {
    assert [c][..0] == "";
    assert Run(p, "") == p;
  }

  lemma TokenAndSpace(p: Parser, t: string)
    requires !p.closed && p.current == "" && IsToken(t)
    ensures Run(p, t + " ") == p.(done := p.done + [t])
  {
    RunAppend(p, t, " ");
    TokenIsRead(p, t);
    assert "" + t == t;
    FeedOne(Run(p, t), ' ');
  }

  lemma {:induction false} SpacedLast(before: Tokens, t: string)
    ensures Spaced(before + [t]) == Spaced(before) + (t + " ")
  {
    var all := before + [t];
    assert all[..|all| - 1] == before && all[|all| - 1] == t;
    assert Spaced(all) == Spaced(before) + t + " ";
  }

  lemma {:induction false} SpacedNext(p: Parser, before: Tokens, t: string)
    requires !p.closed && p.current == "" && IsToken(t) && Run(p, Spaced(before)) == p.(done := p.done + before)
    ensures Run(p, Spaced(before + [t])) == p.(done := p.done + (before + [t]))
  {
    var q := p.(done := p.done + before);
    TokenAndSpace(q, t);
    SpacedLast(before, t);
    RunAppend(p, Spaced(before), t + " ");
    assert p.done + before + [t] == p.done + (before + [t]);
  }

  lemma {:induction false} SpacedIsRead(p: Parser, tokens: Tokens)
    requires !p.closed && p.current == "" && forall t <- tokens :: IsToken(t)
    ensures Run(p, Spaced(tokens)) == p.(done := p.done + tokens)
  {
    if tokens == [] {
      assert p.done + tokens == p.done;
    } else {
      var before, t := tokens[..|tokens| - 1], tokens[|tokens| - 1];
      SpacedIsRead(p, before);
      assert IsToken(t);
      SpacedNext(p, before, t);
      assert tokens == before + [t];
    }
  }

  lemma StatusIsRead(p: Parser, status: char)
    requires !p.closed && p.current == "" && InToken(status)
    ensures Run(p, [status] + "!") == Dispatched(p.(current := [status]))
  {
    RunAppend(p, [status], "!");
    FeedOne(p, status);
    assert "" + [status] == [status];
    FeedOne(p.(current := [status]), '!');
  }

  /** Read back, the echo of a command is that command with its status as a further token,
      empty tokens and all. */
  lemma EchoReadsBack(p: Parser, tokens: Tokens, status: char)
    requires !p.closed && p.done == [] && p.current == "" && InToken(status)
    requires forall t <- tokens :: IsToken(t)
    ensures var q := Run(p, Echo(tokens, status));
            && q.commands == p.commands + [tokens + [[status]]]
            && q.done == [] && q.current == ""
            && (q.closed <==> tokens != [] && tokens[0] == "DC")
  {
    SpacedIsRead(p, tokens);
    assert p.done + tokens == tokens;
    var q := p.(done := tokens);
    StatusIsRead(q, status);
    assert Echo(tokens, status) == Spaced(tokens) + ([status] + "!");
    RunAppend(p, Spaced(tokens), [status] + "!");
  }

  lemma {:induction false} OnePiece(s: string, separator: char)
    requires separator !in s
    ensures Split(s, separator) == [s]
  {
    if s != "" {
      OnePiece(s[..|s| - 1], separator);
      assert s == s[..|s| - 1] + [s[|s| - 1]];
      assert [s[..|s| - 1]][..0] == [];
    }
  }

  lemma {:induction false} SpacedHasNoMark(tokens: Tokens)
    requires forall t <- tokens :: IsToken(t)
    ensures '!' !in Spaced(tokens)
  {
    if tokens != [] {
      var t := tokens[|tokens| - 1];
      SpacedHasNoMark(tokens[..|tokens| - 1]);
      assert IsToken(t) && !InToken('!');
      assert '!' !in t;
    }
  }

  lemma OneCommandHeard(s: string)
    ensures AllFit(Heard([s, ""])) <==> FitsText(s)
  {
    var texts := [s, ""];
    assert TokensOf("") == [""];
    assert FitsText("");
    assert texts[..1] == [s];
    assert Heard([s]) == [s];
    if Dropped(Said(texts)) {
      assert Heard(texts) == [s];
    } else {
      HeardAll(texts);
    }
  }

  /** The characters of all tokens together. */
  function TotalLength(tokens: Tokens): nat {
    if tokens == [] then 0 else TotalLength(tokens[..|tokens| - 1]) + |tokens[|tokens| - 1]|
  }

  lemma {:induction false} SpacedLength(tokens: Tokens)
    ensures |Spaced(tokens)| == TotalLength(tokens) + |tokens|
    ensures forall t <- tokens :: |t| <= TotalLength(tokens)
  {
    if tokens != [] {
      var before := tokens[..|tokens| - 1];
      SpacedLength(before);
      assert tokens == before + [tokens[|tokens| - 1]];
    }
  }

  /** An echo fits the buffer it is built in exactly when the tokens, with a space each, come to
      less than 256 characters. */
  lemma {:induction false} EchoBufferExactly(tokens: Tokens, status: char)
    ensures |Echo(tokens, status)| < ECHO_LENGTH <==> TotalLength(tokens) + |tokens| < MAX_LENGTH
  {
    SpacedLength(tokens);
  }

  /** A command that the parser has room for, and whose echo overruns the echo's buffer. */
  lemma {:induction false} EchoOverruns(t: string, status: char)
    requires IsToken(t) && |t| == MAX_LENGTH - 1
    ensures Run(FRESH, "X " + t + "!").commands == [["X", t]]
    ensures WithinRun(FRESH, "X " + t + "!") && |Echo(["X", t], status)| >= ECHO_LENGTH
  {
    var text := "X " + t;
    var tokens := ["X", t];
    SpacedLast(["X"], t);
    SpacedLast([], "X");
    assert [] + ["X"] == ["X"] && ["X"] + [t] == tokens;
    CommandIsText(["X"], t);
    assert Spaced(["X"]) == "X " by { assert Spaced([]) == ""; }
    assert AllFit([text]) <==> FitsText(text);
    WithinExactly(text + "!");
    OneCommandHeard(text);
    ParserHearsWhatIsSaid(text + "!");
    assert [text, ""][..1] == [text] && Said([text]) == [];
  }

  /** Tokens written with a space between are one text of those tokens. */
  lemma {:induction false} CommandIsText(before: Tokens, last: string)
    requires (forall t <- before :: IsToken(t)) && IsToken(last)
    ensures Split(Spaced(before) + last + "!", '!') == [Spaced(before) + last, ""]
    ensures TokensOf(Spaced(before) + last) == before + [last]
  {
    var s := Spaced(before) + last;
    SpacedHasNoMark(before);
    assert !InToken('!');
    assert '!' !in s;
    OnePiece(s, '!');
    SplitFurther(s, '!');
    assert [s] + [""] == [s, ""];
    ParserHearsWhatIsSaid(s);
    SpacedIsRead(FRESH, before);
    assert [] + before == before;
    RunAppend(FRESH, Spaced(before), last);
    TokenIsRead(FRESH.(done := before), last);
    assert "" + last == last;
    assert !Run(FRESH, s).closed;
  }

  /** An echo can be built, and a parser has room for it, exactly when the tokens are one short of
      the limit and, with a space each, come to less than 256 characters. */
  lemma {:induction false} EchoFitsExactly(tokens: Tokens, status: char)
    requires InToken(status) && forall t <- tokens :: IsToken(t)
    ensures |Echo(tokens, status)| < ECHO_LENGTH && WithinRun(FRESH, Echo(tokens, status)) <==>
            |tokens| < MAX_ARGS && TotalLength(tokens) + |tokens| < MAX_LENGTH
  {
    EchoBufferExactly(tokens, status);
    CommandIsText(tokens, [status]);
    WithinExactly(Echo(tokens, status));
    OneCommandHeard(Spaced(tokens) + [status]);
    SpacedLength(tokens);
  }

  /** Every command dispatched can be echoed: its tokens are made of token characters. */
  lemma {:induction false} ParserKeepsTokens(p: Parser, bytes: string)
    requires forall t <- p.done :: IsToken(t)
    requires IsToken(p.current) && forall command <- p.commands :: forall t <- command :: IsToken(t)
    ensures var q := Run(p, bytes);
            && (forall t <- q.done :: IsToken(t)) && IsToken(q.current)
            && forall command <- q.commands :: forall t <- command :: IsToken(t)
  {
    if bytes != "" {
      ParserKeepsTokens(p, bytes[..|bytes| - 1]);
    }
  }

  // ---------------------------------------------------------------- the connection's buffers

  lemma RunFurther(p: Parser, bytes: string, i: nat)
    requires i < |bytes|
    ensures Run(p, bytes[..i + 1]) == Feed(Run(p, bytes[..i]), bytes[i])
  {
    assert bytes[..i + 1][..i] == bytes[..i];
  }

  lemma {:induction false} WithinPrefix(p: Parser, bytes: string, i: nat)
    requires i <= |bytes| && WithinRun(p, bytes)
    ensures WithinRun(p, bytes[..i])
    decreases |bytes|
  {
    if i < |bytes| {
      var b := bytes[..|bytes| - 1];
      WithinPrefix(p, b, i);
      assert b[..i] == bytes[..i];
    } else {
      assert bytes[..i] == bytes;
    }
  }

  /** The parsing state of one connection. */
  class Connection {
    const args: array2<char>
    var argnum: int
    var argptr: int
    var closed: bool
    ghost var parser: Parser

    /** Buffer `i` holds the token. */
    ghost predicate Holds(i: int, token: string)
      reads args
    {
      && 0 <= i < args.Length0 && |token| <= args.Length1
      && forall j :: 0 <= j < |token| ==> args[i, j] == token[j]
    }

    /** Buffer `i` holds the token and the end of a string. */
    ghost predicate HoldsText(i: int, token: string)
      reads args
    {
      Holds(i, token) && |token| < args.Length1 && args[i, |token|] == '\0'
    }

    ghost predicate Valid()
      reads this, args
    {
      && args.Length0 == MAX_ARGS && args.Length1 == MAX_LENGTH
      && Within(parser) && argnum == |parser.done| && argptr == |parser.current| && closed == parser.closed
      && IsToken(parser.current) && (forall t <- parser.done :: IsToken(t))
      && Holds(argnum, parser.current)
      && forall i :: 0 <= i < argnum ==> HoldsText(i, parser.done[i])
    }

    constructor ()
      ensures Valid() && parser == FRESH && fresh(args)
    {
      args := new char[MAX_ARGS, MAX_LENGTH];
      argnum, argptr, closed, parser := 0, 0, false, FRESH;
      new;
    }

    /** A string in a buffer: its characters up to the first end of string. */
    method Text(i: int, ghost token: string) returns (t: string)
      requires HoldsText(i, token) && IsToken(token)
      ensures t == token
    {
      t := "";
      var j := 0;
      while args[i, j] != '\0'
        invariant 0 <= j <= |token| && t == token[..j]
        decreases |token| - j
      {
        t := t + [args[i, j]];
        j := j + 1;
      }
      assert j < |token| ==> InToken(token[j]);
    }

    /** The strings in the first buffers. */
    method Texts(n: int, ghost tokens: Tokens) returns (ts: Tokens)
      requires n == |tokens| <= args.Length0
      requires forall i :: 0 <= i < n ==> HoldsText(i, tokens[i]) && IsToken(tokens[i])
      ensures ts == tokens
    {
      ts := [];
      var i := 0;
      while i < n
        invariant 0 <= i <= n && ts == tokens[..i]
      {
        var t := Text(i, tokens[i]);
        ts := ts + [t];
        i := i + 1;
      }
    }

    /** What the server sends back, written into its buffer: the arguments it holds, each with a
        space, and a status. */
    method EchoArgs(count: int, status: char, ghost tokens: Tokens) returns (command: string)
      requires count == |tokens| <= args.Length0 && InToken(status)
      requires forall i :: 0 <= i < count ==> HoldsText(i, tokens[i]) && IsToken(tokens[i])
      requires |Echo(tokens, status)| < ECHO_LENGTH
      ensures command == Echo(tokens, status)
    {
      var buffer := new char[ECHO_LENGTH];
      buffer[0] := '\0';
      var i := 0;
      while i < count
        invariant 0 <= i <= count && fresh(buffer) && buffer.Length == ECHO_LENGTH
        invariant IsText(buffer[..], Spaced(tokens[..i]))
      {
        SpacedFits(tokens, i, status);
        var t := Text(i, tokens[i]);
        Append(buffer, Spaced(tokens[..i]), t);
        Append(buffer, Spaced(tokens[..i]) + t, " ");
        i := i + 1;
      }
      assert tokens[..count] == tokens;
      Append(buffer, Spaced(tokens), [status] + "!");
      assert Spaced(tokens) + ([status] + "!") == Echo(tokens, status);
      var l := Length(buffer, Echo(tokens, status));
      command := buffer[..l];
    }

    /** The length of the string in a buffer. */
    method Length(buffer: array<char>, ghost text: string) returns (l: nat)
      requires IsText(buffer[..], text)
      ensures l == |text|
    {
      assert forall j :: 0 <= j < |text| ==> buffer[..][j] == text[j] && text[j] in text;
      l := 0;
      while buffer[l] != '\0'
        invariant l <= |text|
        decreases |text| - l
      {
        l := l + 1;
      }
    }

    /** Adds to the string in a buffer. */
    method Append(buffer: array<char>, ghost text: string, more: string)
      requires IsText(buffer[..], text) && '\0' !in more && |text| + |more| < buffer.Length
      modifies buffer
      ensures IsText(buffer[..], text + more)
    {
      var l := Length(buffer, text);
      var j := 0;
      while j < |more|
        invariant 0 <= j <= |more| && l == |text|
        invariant buffer[..l + j] == text + more[..j]
      {
        buffer[l + j] := more[j];
        j := j + 1;
      }
      buffer[l + j] := '\0';
      assert buffer[..|text + more|] == text + more;
    }

    /** A space ends a token. */
    method Space()
      requires Valid() && !closed && Within(Feed(parser, ' '))
      modifies this, args
      ensures Valid() && parser == Feed(old(parser), ' ')
    {
      if argnum < MAX_ARGS {
        args[argnum, argptr] := '\0';
        argnum := argnum + 1;
        argptr := 0;
      }
      parser := Feed(parser, ' ');
    }

    method Graph(c: char)
      requires Valid() && !closed && InToken(c) && c != ' ' && Within(Feed(parser, c))
      modifies this, args
      ensures Valid() && parser == Feed(old(parser), c)
    {
      if argptr < MAX_LENGTH {
        args[argnum, argptr] := c;
        argptr := argptr + 1;
      }
      parser := Feed(parser, c);
    }

    /** An exclamation mark ends a command, which is dispatched. */
    method Mark() returns (command: Tokens)
      requires Valid() && !closed
      modifies this, args
      ensures Valid() && parser == Feed(old(parser), '!') && command == old(parser.done) + [old(parser.current)]
    {
      args[argnum, argptr] := '\0';
      ghost var tokens := parser.done + [parser.current];
      argnum := argnum + 1;
      command := Texts(argnum, tokens);
      if command[0] == "DC" {
        closed := true;
      }
      argnum := 0;
      argptr := 0;
      parser := Feed(parser, '!');
    }

    /** Takes one chunk of bytes; `commands` are those dispatched. */
    method ParseChunk(buf: string) returns (commands: seq<Tokens>)
      requires Valid() && WithinRun(parser, buf)
      modifies this, args
      ensures Valid() && parser == Run(old(parser), buf) && parser.commands == old(parser.commands) + commands
    {
      commands := [];
      var i := 0;
      ghost var before := parser;
      while i < |buf|
        invariant 0 <= i <= |buf| && Valid()
        invariant parser == Run(before, buf[..i]) && parser.commands == before.commands + commands
      {
        RunFurther(before, buf, i);
        WithinPrefix(before, buf, i + 1);
        if closed {
          ClosedIgnores(before, buf, i);
          return;
        }
        if buf[i] == ' ' {
          Space();
        } else if buf[i] == '!' {
          var command := Mark();
          commands := commands + [command];
        } else if IsGraph(buf[i]) {
          Graph(buf[i]);
        }
        i := i + 1;
      }
      assert buf[..|buf|] == buf;
    }

    /** Takes the chunks that arrive, until the connection is dropped. */
    method ParseCommand(chunks: seq<string>) returns (commands: seq<Tokens>)
      requires Valid() && WithinRun(parser, Concat(chunks))
      modifies this, args
      ensures Valid() && parser == Run(old(parser), Concat(chunks))
      ensures parser.commands == old(parser.commands) + commands
    {
      commands := [];
      ghost var before := parser;
      var k := 0;
      while k < |chunks|
        invariant 0 <= k <= |chunks| && Valid()
        invariant parser == Run(before, Concat(chunks[..k])) && parser.commands == before.commands + commands
      {
        ConcatFurther(chunks, k);
        WithinChunk(before, chunks, k);
        RunAppend(before, Concat(chunks[..k]), chunks[k]);
        var more := ParseChunk(chunks[k]);
        commands := commands + more;
        k := k + 1;
      }
      assert chunks[..|chunks|] == chunks;
    }
  }

  /** A buffer holds a text and, behind it, the end of a string. */
  predicate IsText(buffer: string, text: string) {
    |text| < |buffer| && buffer[..|text|] == text && buffer[|text|] == '\0' && '\0' !in text
  }

  lemma {:induction false} SpacedPrefix(tokens: Tokens, i: nat)
    requires i <= |tokens|
    ensures |Spaced(tokens[..i])| <= |Spaced(tokens)|
    decreases |tokens|
  {
    if i < |tokens| {
      assert tokens[..|tokens| - 1][..i] == tokens[..i];
      SpacedPrefix(tokens[..|tokens| - 1], i);
    } else {
      assert tokens[..i] == tokens;
    }
  }

  lemma {:induction false} SpacedFits(tokens: Tokens, i: nat, status: char)
    requires i < |tokens| && (forall t <- tokens :: IsToken(t)) && |Echo(tokens, status)| < ECHO_LENGTH
    ensures Spaced(tokens[..i + 1]) == Spaced(tokens[..i]) + tokens[i] + " "
    ensures |Spaced(tokens[..i])| + |tokens[i]| + 1 < ECHO_LENGTH && '\0' !in tokens[i]
  {
    assert tokens[..i + 1] == tokens[..i] + [tokens[i]];
    SpacedLast(tokens[..i], tokens[i]);
    SpacedPrefix(tokens, i + 1);
    assert IsToken(tokens[i]) && !InToken('\0');
  }

  lemma {:induction false} ClosedStays(p: Parser, bytes: string)
    requires p.closed
    ensures Run(p, bytes) == p
  {
    if bytes != "" {
      ClosedStays(p, bytes[..|bytes| - 1]);
    }
  }

  lemma ClosedIgnores(p: Parser, bytes: string, i: nat)
    requires i <= |bytes| && Run(p, bytes[..i]).closed
    ensures Run(p, bytes) == Run(p, bytes[..i])
  {
    assert bytes == bytes[..i] + bytes[i..];
    RunAppend(p, bytes[..i], bytes[i..]);
    ClosedStays(Run(p, bytes[..i]), bytes[i..]);
  }

  lemma ConcatFurther(chunks: seq<string>, k: nat)
    requires k < |chunks|
    ensures Concat(chunks[..k + 1]) == Concat(chunks[..k]) + chunks[k]
  {
    assert chunks[..k + 1][..k] == chunks[..k];
  }

  lemma {:induction false} ConcatPrefix(chunks: seq<string>, k: nat)
    requires k <= |chunks|
    ensures |Concat(chunks[..k])| <= |Concat(chunks)|
    ensures Concat(chunks)[..|Concat(chunks[..k])|] == Concat(chunks[..k])
    decreases |chunks|
  {
    if k < |chunks| {
      var rest := chunks[..|chunks| - 1];
      assert rest[..k] == chunks[..k];
      ConcatPrefix(rest, k);
    } else {
      assert chunks[..k] == chunks;
    }
  }

  lemma {:induction false} WithinSuffix(p: Parser, a: string, b: string)
    requires WithinRun(p, a + b)
    ensures WithinRun(Run(p, a), b)
    decreases |b|
  {
    RunAppend(p, a, b);
    if b != "" {
      assert (a + b)[..|a + b| - 1] == a + b[..|b| - 1];
      WithinSuffix(p, a, b[..|b| - 1]);
    }
  }

  lemma WithinChunk(p: Parser, chunks: seq<string>, k: nat)
    requires k < |chunks| && WithinRun(p, Concat(chunks))
    ensures WithinRun(Run(p, Concat(chunks[..k])), chunks[k])
  {
    ConcatPrefix(chunks, k + 1);
    ConcatFurther(chunks, k);
    WithinPrefix(p, Concat(chunks), |Concat(chunks[..k + 1])|);
    WithinSuffix(p, Concat(chunks[..k]), chunks[k]);
  }
}
