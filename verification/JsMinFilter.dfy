/**
 The minifier as it runs (helpers/jsmin.c): a window of two characters over a stream with
 one character of lookahead. `Run` is proved to write `JsMinSqueeze.Minify` of its input.
 */
module JsMinFilter {
  import opened Options
  import opened JsMinLexemes
  import opened JsMinSqueeze

  /** What `getc` returns. */
  datatype Symbol = Eof | Chr(c: char)

  function Unread(b: Symbol, rest: string): string {
    if b.Eof? then "" else [b.c] + rest
  }

  // --------------------------------------------- effect of the filter's operations

  /** The next character, comments excluded, and what remains; nothing if a comment is
      not closed. */
  function Fetch(t: string): Option<(Symbol, string)> {
    if t == "" then Some((Eof, ""))
    else if t[0] == '/' && |t| > 1 && t[1] == '/' then
      var r := t[2..][LineLength(t[2..])..];
      Some(if r == "" then (Eof, "") else (Chr(r[0]), r[1..]))
    else if t[0] == '/' && |t| > 1 && t[1] == '*' then
      match BlockLength(t[2..])
      case None => None
      case Some(n) => Some((Chr(' '), t[2..][n + 2..]))
    else Some((Chr(t[0]), t[1..]))
  }

  /** What an action writes, and the window and input it leaves. */
  datatype Effect = Effect(written: string, a: Symbol, b: Symbol, rest: string)

  /** B moves to A; a string literal is written up to its closing quote. */
  function Shift(b: Symbol, rest: string): Option<Effect> {
    if b.Chr? && IsQuote(b.c) then
      match DelimitedLength(rest, b.c)
      case None => None
      case Some(n) => Some(Effect([b.c] + rest[..n], b, b, rest[n + 1..]))
    else Some(Effect("", b, b, rest))
  }

  /** The next B is fetched; a regular expression is written up to its closing slash. */
  function Refill(a: Symbol, rest: string): Option<Effect> {
    match Fetch(rest)
    case None => None
    case Some((b, r)) =>
      if b == Chr('/') && a.Chr? && OpensRegex(a.c) then
        match DelimitedLength(r, '/')
        case None => None
        case Some(n) =>
          match Fetch(r[n + 1..])
          case None => None
          case Some((b', r')) => Some(Effect([a.c] + "/" + r[..n], Chr('/'), b', r'))
      else Some(Effect("", a, b, r))
  }

  /** Action 1 writes A and goes on as 2, 2 moves B to A and goes on as 3, 3 fetches B. */
  function Act(d: int, a: Symbol, b: Symbol, rest: string): Option<Effect>
    requires 1 <= d <= 3 && (d == 1 ==> a.Chr?)
  {
    match if d <= 2 then Shift(b, rest) else Some(Effect("", a, b, rest))
    case None => None
    case Some(e) =>
      match Refill(e.a, e.rest)
      case None => None
      case Some(f) => Some(Effect((if d == 1 then [a.c] else "") + e.written + f.written, f.a, f.b, f.rest))
  }

  /** The action that the main loop takes for a window. */
  function ActionFor(a: char, b: Symbol): (d: int)
    ensures 1 <= d <= 3
  {
    var alphanumB := b.Chr? && IsAlphanum(b.c);
    if a == ' ' then
      if alphanumB then 1 else 2
    else if a == '\n' then
      if b in {Chr('{'), Chr('['), Chr('('), Chr('+'), Chr('-')} then 1
      else if b == Chr(' ') then 3
      else if alphanumB then 1 else 2
    else if b == Chr(' ') then
      if IsAlphanum(a) then 1 else 3
    else if b == Chr('\n') then
      if a in {'}', ']', ')', '+', '-', '"', '\''} then 1
      else if IsAlphanum(a) then 1 else 3
    else 1
  }

  // ------------------------------------------------------------ meaning of a window

  /** The character A holds when the text so far has left `ctx`: white space still owed, or
      the last significant character, not yet written. */
  function Window(ctx: Context): char {
    if ctx.newline && KeepsNewline(ctx.last) then '\n'
    else if ctx.space && IsAlphanum(ctx.last) then ' '
    else ctx.last
  }

  /** The significant character that A still holds back. */
  function Pending(ctx: Context): string {
    if Owed(ctx) == 1 then "" else [ctx.last]
  }

  function Prepend(s: string, r: Option<string>): Option<string> {
    match r
    case None => None
    case Some(t) => Some(s + t)
  }

  lemma PrependPrepend(s: string, t: string, r: Option<string>)
    ensures Prepend(s, Prepend(t, r)) == Prepend(s + t, r)
  {
    if r.Some? {
      assert s + (t + r.value) == s + t + r.value;
    }
  }

  /** What a window has still to write. */
  function ToWrite(ctx: Context, b: Symbol, rest: string): Option<string> {
    Prepend(Pending(ctx), MinifyFrom(Unread(b, rest), ctx))
  }

  predicate GoodContext(ctx: Context) {
    ctx.last != ' ' && (ctx.last == '\n' ==> ctx.newline)
  }

  /** B was fetched: it starts no comment, and no regular expression. */
  predicate GoodB(ctx: Context, b: Symbol, rest: string) {
    && (b.Eof? ==> rest == "")
    && (b == Chr('/') ==> !ctx.RegexAllowed() && (rest == "" || (rest[0] != '/' && rest[0] != '*')))
  }

  lemma MinifyStep(t: string, ctx: Context)
    requires t != ""
    ensures MinifyFrom(t, ctx) ==
            match FirstLexeme(t, ctx)
            case None => None
            case Some(x) =>
              Prepend(if x.Significant() then TextOf(Gap(ctx, x)) + x.Text() else "",
                      MinifyFrom(t[|x.Text()|..], ctx.After(x)))
  {
    match FirstLexeme(t, ctx) {
      case None =>
      case Some(x) =>
        match Lex(t[|x.Text()|..], ctx.After(x)) {
          case None =>
          case Some(xs) =>
            var g := Gap(ctx, x);
            assert ([x] + xs)[1..] == xs;
            if x.Significant() {
              TextConcat(g + [x], Squeeze(xs, ctx.After(x)));
              TextConcat(g, [x]);
              assert TextOf([x]) == x.Text();
            } else {
              PrependNothing(Some(TextOf(Squeeze(xs, ctx.After(x)))));
            }
        }
    }
  }

  lemma FetchMeaning(t: string, ctx: Context)
    ensures match Fetch(t)
            case None => MinifyFrom(t, ctx) == None
            case Some((b, r)) =>
              && MinifyFrom(t, ctx) == MinifyFrom(Unread(b, r), ctx)
              && (b.Eof? ==> r == "")
              && (b == Chr('/') ==> r == "" || (r[0] != '/' && r[0] != '*'))
  {
    if t != "" {
      MinifyStep(t, ctx);
      if t[0] == '/' && |t| > 1 && t[1] == '/' {
        LineCommentMeaning(t, ctx);
      } else if t[0] == '/' && |t| > 1 && t[1] == '*' {
        BlockCommentMeaning(t, ctx);
      } else {
        assert t == [t[0]] + t[1..];
      }
    }
  }

  lemma LineCommentMeaning(t: string, ctx: Context)
    requires |t| > 1 && t[0] == '/' && t[1] == '/'
    ensures MinifyFrom(t, ctx) == MinifyFrom(t[2..][LineLength(t[2..])..], ctx)
    ensures var r := t[2..][LineLength(t[2..])..]; r == "" || r == Unread(Chr(r[0]), r[1..])
  {
    MinifyStep(t, ctx);
    var n := LineLength(t[2..]);
    var x := LineComment(t[2..][..n]);
    assert FirstLexeme(t, ctx) == Some(x);
    assert t[|x.Text()|..] == t[2..][n..];
    PrependNothing(MinifyFrom(t[2..][n..], ctx));
  }

  lemma BlockCommentMeaning(t: string, ctx: Context)
    requires |t| > 1 && t[0] == '/' && t[1] == '*'
    ensures match BlockLength(t[2..])
            case None => MinifyFrom(t, ctx) == None
            case Some(n) => MinifyFrom(t, ctx) == MinifyFrom(Unread(Chr(' '), t[2..][n + 2..]), ctx)
  {
    MinifyStep(t, ctx);
    match BlockLength(t[2..]) {
      case None =>
      case Some(n) =>
        var x := BlockComment(t[2..][..n]);
        assert FirstLexeme(t, ctx) == Some(x);
        assert t[|x.Text()|..] == t[2..][n + 2..];
        var u := Unread(Chr(' '), t[2..][n + 2..]);
        MinifyStep(u, ctx);
        assert u[1..] == t[2..][n + 2..];
    }
  }

  lemma PrependNothing(r: Option<string>)
    ensures Prepend("", r) == r
  {
    if r.Some? {
      assert "" + r.value == r.value;
    }
  }

  /** Fetching B keeps what is to be written, and leaves a window of some context. */
  lemma {:induction false} RefillMeaning(ctx: Context, rest: string) returns (ctx': Context)
    requires GoodContext(ctx)
    ensures GoodContext(ctx')
    ensures match Refill(Chr(Window(ctx)), rest)
            case None => MinifyFrom(rest, ctx) == None
            case Some(e) =>
              && Prepend(Pending(ctx), MinifyFrom(rest, ctx)) == Prepend(e.written, ToWrite(ctx', e.b, e.rest))
              && e.a == Chr(Window(ctx')) && GoodB(ctx', e.b, e.rest)
  {
    ctx' := ctx;
    FetchMeaning(rest, ctx);
    match Fetch(rest) {
      case None =>
      case Some((b, r)) =>
        assert OpensRegex(Window(ctx)) == ctx.RegexAllowed();
        if b == Chr('/') && ctx.RegexAllowed() {
          ctx' := Context('/', false, false);
          RegexMeaning(ctx, r);
          match DelimitedLength(r, '/') {
            case None =>
            case Some(n) => FetchMeaning(r[n + 1..], ctx');
          }
        } else {
          PrependNothing(ToWrite(ctx, b, r));
        }
    }
  }

  /** A regular expression owes all the white space that A stands for. */
  lemma {:induction false} RegexGap(ctx: Context, x: Lexeme)
    requires GoodContext(ctx) && ctx.RegexAllowed() && x.Regex?
    ensures Pending(ctx) + TextOf(Gap(ctx, x)) == [Window(ctx)]
  {
    assert TextOf([]) == "" && TextOf([Newline]) == "\n";
    if ctx.newline && KeepsNewline(ctx.last) {
      assert Gap(ctx, x) == [Newline];
    } else {
      assert Gap(ctx, x) == [];
    }
  }

  lemma {:induction false} RegexFirst(ctx: Context, r: string, n: nat)
    requires GoodContext(ctx) && ctx.RegexAllowed()
    requires (r == "" || (r[0] != '/' && r[0] != '*')) && DelimitedLength(r, '/') == Some(n)
    ensures var x := Regex(r[..n]); var t := "/" + r;
            && FirstLexeme(t, ctx) == Some(x) && |x.Text()| <= |t| && t[|x.Text()|..] == r[n + 1..]
            && Pending(ctx) + TextOf(Gap(ctx, x)) == [Window(ctx)] && x.Text() == ("/" + r[..n]) + "/"
  {
    var t := "/" + r;
    assert t[0] == '/' && (|t| > 1 ==> t[1] == r[0]) && t[1..] == r;
    assert FirstLexeme(t, ctx) == Some(Regex(r[..n]));
    assert t[n + 2..] == r[n + 1..];
    RegexGap(ctx, Regex(r[..n]));
  }

  lemma {:induction false} RegexMeaning(ctx: Context, r: string)
    requires GoodContext(ctx) && ctx.RegexAllowed()
    requires r == "" || (r[0] != '/' && r[0] != '*')
    ensures match DelimitedLength(r, '/')
            case None => MinifyFrom("/" + r, ctx) == None
            case Some(n) =>
              var ctx' := Context('/', false, false);
              Prepend(Pending(ctx), MinifyFrom("/" + r, ctx))
              == Prepend([Window(ctx)] + "/" + r[..n], Prepend("/", MinifyFrom(r[n + 1..], ctx')))
  {
    var t := "/" + r;
    assert t[1..] == r;
    MinifyStep(t, ctx);
    match DelimitedLength(r, '/') {
      case None =>
      case Some(n) =>
        var x := Regex(r[..n]);
        RegexFirst(ctx, r, n);
        JoinTurn(ctx, x, [Window(ctx)], "/" + r[..n], Context('/', false, false), r[n + 1..]);
        assert [Window(ctx)] + ("/" + r[..n]) == [Window(ctx)] + "/" + r[..n];
    }
  }

  /** Reading B as a lexeme of its own: the white space it may owe is what A may write. */
  lemma ConsumeMeaning(ctx: Context, x: Lexeme, rest: string)
    requires GoodContext(ctx) && x.Significant() && !x.Regex?
    ensures Pending(ctx) + TextOf(Gap(ctx, x))
         == if ActionFor(Window(ctx), Chr(x.First())) == 1 then [Window(ctx)] else ""
    requires x.Plain? ==> x.c != ' ' && x.c != '\n'
    requires x.Quoted? ==> IsQuote(x.quote)
    ensures ActionFor(Window(ctx), Chr(x.First())) != 3
  {
    assert TextOf([Newline]) == "\n" && TextOf([Space]) == " ";
  }

  /** One turn of the main loop keeps what is to be written. */
  lemma {:induction false} TurnMeaning(ctx: Context, b: Symbol, rest: string) returns (ctx': Context)
    requires GoodContext(ctx) && GoodB(ctx, b, rest)
    ensures GoodContext(ctx')
    ensures match Act(ActionFor(Window(ctx), b), Chr(Window(ctx)), b, rest)
            case None => ToWrite(ctx, b, rest) == None
            case Some(e) =>
              if e.a.Eof? then ToWrite(ctx, b, rest) == Some(e.written)
              else
                && ToWrite(ctx, b, rest) == Prepend(e.written, ToWrite(ctx', e.b, e.rest))
                && e.a == Chr(Window(ctx')) && GoodB(ctx', e.b, e.rest)
  {
    if b.Eof? {
      ctx' := ctx;
      EofTurn(ctx);
    } else if b.c == ' ' || b.c == '\n' {
      ctx' := WhiteSpaceTurn(ctx, b.c, rest);
    } else if IsQuote(b.c) {
      ctx' := QuotedTurn(ctx, b.c, rest);
    } else {
      ctx' := PlainTurn(ctx, b.c, rest);
    }
  }

  lemma EofTurn(ctx: Context)
    requires GoodContext(ctx)
    ensures Act(ActionFor(Window(ctx), Eof), Chr(Window(ctx)), Eof, "") == Some(Effect(Pending(ctx), Eof, Eof, ""))
    ensures ToWrite(ctx, Eof, "") == Some(Pending(ctx))
  {
    var d := ActionFor(Window(ctx), Eof);
    assert Shift(Eof, "") == Some(Effect("", Eof, Eof, ""));
    assert Refill(Eof, "") == Some(Effect("", Eof, Eof, ""));
    assert Pending(ctx) + "" == Pending(ctx);
    assert (if d == 1 then [Window(ctx)] else "") == Pending(ctx);
    assert Pending(ctx) + "" + "" == Pending(ctx);
  }

  /** What A writes when B is `c`. */
  function Owing(ctx: Context, c: char): string {
    if ActionFor(Window(ctx), Chr(c)) == 1 then [Window(ctx)] else ""
  }

  /** What is written from `next` on, when B has been fetched. */
  lemma {:induction false} RefillAfter(next: Context, rest: string, before: string) returns (ctx': Context)
    requires GoodContext(next)
    ensures GoodContext(ctx')
    ensures var all := Prepend(before, Prepend(Pending(next), MinifyFrom(rest, next)));
            match Refill(Chr(Window(next)), rest)
            case None => all == None
            case Some(e) =>
              && all == Prepend(before + e.written, ToWrite(ctx', e.b, e.rest))
              && e.a == Chr(Window(ctx')) && GoodB(ctx', e.b, e.rest)
  {
    ctx' := RefillMeaning(next, rest);
    match Refill(Chr(Window(next)), rest) {
      case None =>
      case Some(e) => PrependPrepend(before, e.written, ToWrite(ctx', e.b, e.rest));
    }
  }

  /** White space met adds to what may be owed; A is written when that cannot grow. */
  lemma {:induction false} WhiteSpaceWrites(ctx: Context, c: char, rest: string)
    requires GoodContext(ctx) && (c == ' ' || c == '\n')
    ensures var next := ctx.After(if c == ' ' then Space else Newline);
            && GoodContext(next) && Pending(ctx) == Owing(ctx, c) + Pending(next)
            && ToWrite(ctx, Chr(c), rest) == Prepend(Owing(ctx, c), Prepend(Pending(next), MinifyFrom(rest, next)))
  {
    var x := if c == ' ' then Space else Newline;
    var next := ctx.After(x);
    var t := Unread(Chr(c), rest);
    MinifyStep(t, ctx);
    assert FirstLexeme(t, ctx) == Some(x) && t[1..] == rest;
    PrependNothing(MinifyFrom(rest, next));
    PrependPrepend(Owing(ctx, c), Pending(next), MinifyFrom(rest, next));
  }

  lemma {:induction false} ActWhiteSpace(ctx: Context, c: char, rest: string)
    requires GoodContext(ctx) && (c == ' ' || c == '\n')
    ensures var next := ctx.After(if c == ' ' then Space else Newline);
            Act(ActionFor(Window(ctx), Chr(c)), Chr(Window(ctx)), Chr(c), rest) ==
            match Refill(Chr(Window(next)), rest)
            case None => None
            case Some(e) => Some(Effect(Owing(ctx, c) + e.written, e.a, e.b, e.rest))
  {
    assert Owing(ctx, c) + "" == Owing(ctx, c);
  }

  lemma {:induction false} WhiteSpaceTurn(ctx: Context, c: char, rest: string) returns (ctx': Context)
    requires GoodContext(ctx) && (c == ' ' || c == '\n')
    ensures GoodContext(ctx')
    ensures match Act(ActionFor(Window(ctx), Chr(c)), Chr(Window(ctx)), Chr(c), rest)
            case None => ToWrite(ctx, Chr(c), rest) == None
            case Some(e) =>
              && ToWrite(ctx, Chr(c), rest) == Prepend(e.written, ToWrite(ctx', e.b, e.rest))
              && e.a == Chr(Window(ctx')) && GoodB(ctx', e.b, e.rest)
  {
    WhiteSpaceWrites(ctx, c, rest);
    ActWhiteSpace(ctx, c, rest);
    ctx' := RefillAfter(ctx.After(if c == ' ' then Space else Newline), rest, Owing(ctx, c));
  }

  lemma QuotedFirst(ctx: Context, q: char, rest: string)
    requires IsQuote(q)
    ensures var t := Unread(Chr(q), rest);
            t != "" &&
            match DelimitedLength(rest, q)
            case None => FirstLexeme(t, ctx) == None
            case Some(n) =>
              var x := Quoted(q, rest[..n]);
              FirstLexeme(t, ctx) == Some(x) && |x.Text()| <= |t| && t[|x.Text()|..] == rest[n + 1..]
  {
    assert Unread(Chr(q), rest)[1..] == rest;
  }

  lemma QuotedWrites(ctx: Context, q: char, rest: string)
    requires GoodContext(ctx) && IsQuote(q)
    ensures match DelimitedLength(rest, q)
            case None => ToWrite(ctx, Chr(q), rest) == None
            case Some(n) =>
              var next := Context(q, false, false);
              ToWrite(ctx, Chr(q), rest)
              == Prepend(Owing(ctx, q) + ([q] + rest[..n]), Prepend(Pending(next), MinifyFrom(rest[n + 1..], next)))
    ensures ActionFor(Window(ctx), Chr(q)) != 3
  {
    var t := Unread(Chr(q), rest);
    MinifyStep(t, ctx);
    QuotedFirst(ctx, q, rest);
    ConsumeMeaning(ctx, Quoted(q, ""), rest);
    match DelimitedLength(rest, q) {
      case None =>
      case Some(n) =>
        var x := Quoted(q, rest[..n]);
        ConsumeMeaning(ctx, x, rest);
        JoinTurn(ctx, x, Owing(ctx, q), [q] + rest[..n], Context(q, false, false), rest[n + 1..]);
    }
  }

  lemma ActQuoted(ctx: Context, q: char, rest: string)
    requires IsQuote(q) && ActionFor(Window(ctx), Chr(q)) != 3
    ensures Act(ActionFor(Window(ctx), Chr(q)), Chr(Window(ctx)), Chr(q), rest) ==
            match DelimitedLength(rest, q)
            case None => None
            case Some(n) =>
              match Refill(Chr(q), rest[n + 1..])
              case None => None
              case Some(e) => Some(Effect(Owing(ctx, q) + ([q] + rest[..n]) + e.written, e.a, e.b, e.rest))
  {
  }

  lemma {:induction false} QuotedTurn(ctx: Context, q: char, rest: string) returns (ctx': Context)
    requires GoodContext(ctx) && IsQuote(q)
    ensures GoodContext(ctx')
    ensures match Act(ActionFor(Window(ctx), Chr(q)), Chr(Window(ctx)), Chr(q), rest)
            case None => ToWrite(ctx, Chr(q), rest) == None
            case Some(e) =>
              && ToWrite(ctx, Chr(q), rest) == Prepend(e.written, ToWrite(ctx', e.b, e.rest))
              && e.a == Chr(Window(ctx')) && GoodB(ctx', e.b, e.rest)
  {
    ctx' := ctx;
    QuotedWrites(ctx, q, rest);
    ActQuoted(ctx, q, rest);
    match DelimitedLength(rest, q) {
      case None =>
      case Some(n) =>
        ctx' := RefillAfter(Context(q, false, false), rest[n + 1..], Owing(ctx, q) + ([q] + rest[..n]));
    }
  }

  lemma PlainFirst(ctx: Context, c: char, rest: string)
    requires GoodContext(ctx) && GoodB(ctx, Chr(c), rest)
    requires c != ' ' && c != '\n' && !IsQuote(c)
    ensures var t := Unread(Chr(c), rest);
            t != "" && FirstLexeme(t, ctx) == Some(Plain(c)) && t[1..] == rest
  {
    assert Unread(Chr(c), rest)[1..] == rest;
  }

  lemma {:induction false} PlainTurn(ctx: Context, c: char, rest: string) returns (ctx': Context)
    requires GoodContext(ctx) && GoodB(ctx, Chr(c), rest)
    requires c != ' ' && c != '\n' && !IsQuote(c)
    ensures GoodContext(ctx')
    ensures match Act(ActionFor(Window(ctx), Chr(c)), Chr(Window(ctx)), Chr(c), rest)
            case None => ToWrite(ctx, Chr(c), rest) == None
            case Some(e) =>
              && ToWrite(ctx, Chr(c), rest) == Prepend(e.written, ToWrite(ctx', e.b, e.rest))
              && e.a == Chr(Window(ctx')) && GoodB(ctx', e.b, e.rest)
  {
    var t := Unread(Chr(c), rest);
    PlainFirst(ctx, c, rest);
    MinifyStep(t, ctx);
    var x := Plain(c);
    var next := Context(c, false, false);
    ConsumeMeaning(ctx, x, rest);
    ctx' := RefillMeaning(next, rest);
    var before := if ActionFor(Window(ctx), Chr(c)) == 1 then [Window(ctx)] else "";
    JoinTurn(ctx, x, before, "", next, rest);
    match Refill(Chr(Window(next)), rest) {
      case None =>
      case Some(e) =>
        PrependPrepend(before + "", e.written, ToWrite(ctx', e.b, e.rest));
    }
  }

  /** `x` is written but for its last character, which becomes the one held back. */
  lemma JoinTurn(ctx: Context, x: Lexeme, before: string, written: string, next: Context, rest: string)
    requires Pending(ctx) + TextOf(Gap(ctx, x)) == before
    requires x.Text() == written + Pending(next)
    ensures Prepend(Pending(ctx), Prepend(TextOf(Gap(ctx, x)) + x.Text(), MinifyFrom(rest, next)))
         == Prepend(before + written, Prepend(Pending(next), MinifyFrom(rest, next)))
  {
    var m := MinifyFrom(rest, next);
    var g := TextOf(Gap(ctx, x));
    PrependPrepend(Pending(ctx), g + x.Text(), m);
    PrependPrepend(before + written, Pending(next), m);
    assert Pending(ctx) + (g + x.Text()) == (Pending(ctx) + g) + (written + Pending(next));
    assert before + (written + Pending(next)) == before + written + Pending(next);
  }

  // ------------------------------------------------------------------- whole runs

  /** The output so far and the window together make up the minified input. */
  predicate OnCourse(input: string, output: string, a: Symbol, b: Symbol, rest: string, ctx: Context) {
    if a.Eof? then Minify(input) == Some(output)
    else
      && Minify(input) == Prepend(output, ToWrite(ctx, b, rest))
      && GoodContext(ctx) && a == Chr(Window(ctx)) && GoodB(ctx, b, rest)
  }

  /** What remains to be read, the window included. */
  function Size(a: Symbol, b: Symbol, rest: string): nat {
    |rest| + (if b.Eof? then 0 else 1) + (if a.Eof? then 0 else 1)
  }

  lemma RunStart(input: string, b: Symbol) returns (ctx: Context)
    ensures match Act(3, Chr('\n'), b, TranslateAll(input))
            case None => Minify(input) == None
            case Some(e) => OnCourse(input, "" + e.written, e.a, e.b, e.rest, ctx)
  {
    ctx := RefillMeaning(START, TranslateAll(input));
    PrependNothing(Minify(input));
    match Refill(Chr('\n'), TranslateAll(input)) {
      case None =>
      case Some(e) => assert "" + ("" + "" + e.written) == e.written;
    }
  }

  lemma RunEnd(input: string, output: string, b: Symbol, rest: string, ctx: Context)
    requires OnCourse(input, output, Eof, b, rest, ctx)
    ensures Minify(input) == Some(output)
  {
  }

  lemma RunTurn(input: string, output: string, a: Symbol, b: Symbol, rest: string, ctx: Context) returns (ctx': Context)
    requires a.Chr? && OnCourse(input, output, a, b, rest, ctx)
    ensures match Act(ActionFor(a.c, b), a, b, rest)
            case None => Minify(input) == None
            case Some(e) =>
              && OnCourse(input, output + e.written, e.a, e.b, e.rest, ctx')
              && Size(e.a, e.b, e.rest) < Size(a, b, rest)
  {
    ctx' := TurnMeaning(ctx, b, rest);
    ActShrinks(ActionFor(a.c, b), a, b, rest);
    match Act(ActionFor(a.c, b), a, b, rest) {
      case None =>
      case Some(e) =>
        if e.a.Chr? {
          PrependPrepend(output, e.written, ToWrite(ctx', e.b, e.rest));
        }
    }
  }

  lemma FetchShrinks(t: string)
    ensures match Fetch(t)
            case None => true
            case Some((b, r)) => (if b.Eof? then 0 else 1) + |r| <= |t|
  {
  }

  lemma RefillShrinks(a: Symbol, rest: string)
    ensures match Refill(a, rest)
            case None => true
            case Some(e) => Size(e.a, e.b, e.rest) <= |rest| + (if a.Eof? then 0 else 1)
  {
    FetchShrinks(rest);
    match Fetch(rest) {
      case None =>
      case Some((b, r)) =>
        match DelimitedLength(r, '/') {
          case None =>
          case Some(n) => FetchShrinks(r[n + 1..]);
        }
    }
  }

  lemma {:induction false} ActShrinks(d: int, a: Symbol, b: Symbol, rest: string)
    requires 1 <= d <= 3 && a.Chr? && (d == 3 ==> b.Chr?)
    ensures match Act(d, a, b, rest)
            case None => true
            case Some(e) => Size(e.a, e.b, e.rest) < Size(a, b, rest)
  {
    if d <= 2 {
      match Shift(b, rest) {
        case None =>
        case Some(e) => RefillShrinks(e.a, e.rest);
      }
    } else {
      RefillShrinks(a, rest);
    }
  }
}
