/**
 The lexical structure that the JavaScript minifier (helpers/jsmin.c) gives to its
 input, stated without the filter's two-character window: a lossless division of the
 text into lexemes, comments and white space included.
 */
module JsMinLexemes {
  import opened Options

  // ------------------------------------------------------------------ characters

  /** A letter, digit, underscore, dollar sign, backslash or a character above '~'. */
  predicate IsAlphanum(c: char) {
    || 'a' <= c <= 'z'
    || '0' <= c <= '9'
    || 'A' <= c <= 'Z'
    || c == '_' || c == '$' || c == '\\'
    || c > '~'
  }

  /** Control characters become spaces, except that a carriage return becomes a linefeed. */
  function Translate(c: char): char {
    if c >= ' ' || c == '\n' then c
    else if c == '\r' then '\n'
    else ' '
  }

  function TranslateAll(s: string): (t: string)
    ensures |t| == |s|
    ensures forall i :: 0 <= i < |s| ==> t[i] == Translate(s[i])
  {
    if s == "" then "" else [Translate(s[0])] + TranslateAll(s[1..])
  }

  predicate IsQuote(c: char) { c == '\'' || c == '"' }

  /** The characters after which a slash opens a regular expression. */
  predicate OpensRegex(c: char) {
    || c == '(' || c == ',' || c == '=' || c == ':' || c == '[' || c == '!'
    || c == '&' || c == '|' || c == '?' || c == '{' || c == '}' || c == ';'
    || c == '\n'
  }

  /** The characters after which a linefeed may matter; '\n' stands for the start of the text. */
  predicate KeepsNewline(c: char) {
    || c == '}' || c == ']' || c == ')' || c == '+' || c == '-' || c == '"' || c == '\''
    || c == '\n'
    || IsAlphanum(c)
  }

  /** The characters before which a linefeed may matter. */
  predicate NeedsNewline(c: char) {
    c == '{' || c == '[' || c == '(' || c == '+' || c == '-' || IsAlphanum(c)
  }

  // --------------------------------------------------------------------- lexemes

  datatype Lexeme =
    | Space
    | Newline
    | LineComment(body: string)
    | BlockComment(body: string)
    | Plain(c: char)
    | Quoted(quote: char, body: string)
    | Regex(body: string)
  {
    function Text(): (s: string)
      ensures |s| >= 1
    {
      match this
      case Space => " "
      case Newline => "\n"
      case LineComment(b) => "//" + b
      case BlockComment(b) => "/*" + b + "*/"
      case Plain(c) => [c]
      case Quoted(q, b) => [q] + b + [q]
      case Regex(b) => "/" + b + "/"
    }

    predicate Significant() { Plain? || Quoted? || Regex? }

    predicate Comment() { LineComment? || BlockComment? }

    function First(): char
    {
      Text()[0]
    }

    /** The character a significant lexeme leaves behind it. */
    function Last(): char
      requires Significant()
    {
      if Plain? then c else if Quoted? then quote else '/'
    }
  }

  function TextOf(xs: seq<Lexeme>): (s: string)
    ensures xs != [] ==> s != ""
  {
    if xs == [] then "" else xs[0].Text() + TextOf(xs[1..])
  }

  // -------------------------------------------------------------------- scanners

  /** The number of characters before the next linefeed or the end of the text. */
  function LineLength(t: string): (n: nat)
    ensures n <= |t|
    ensures n < |t| ==> t[n] == '\n'
    ensures forall i :: 0 <= i < n ==> t[i] != '\n'
  {
    if t == "" || t[0] == '\n' then 0 else 1 + LineLength(t[1..])
  }

  /** The number of characters before the first comment terminator, if there is one. */
  function BlockLength(t: string): (r: Option<nat>)
    ensures r.Some? ==> r.value + 2 <= |t| && t[r.value] == '*' && t[r.value + 1] == '/'
  {
    if t == "" then None
    else if t[0] == '*' && |t| > 1 && t[1] == '/' then Some(0)
    else match BlockLength(t[1..])
      case None => None
      case Some(n) => Some(n + 1)
  }

  /** The number of characters before the first unescaped `q`, if there is one. */
  function DelimitedLength(t: string, q: char): (r: Option<nat>)
    ensures r.Some? ==> r.value < |t| && t[r.value] == q
    decreases |t|
  {
    if t == "" then None
    else if t[0] == q then Some(0)
    else if t[0] != '\\' then
      match DelimitedLength(t[1..], q)
      case None => None
      case Some(n) => Some(n + 1)
    else if |t| < 2 then None
    else
      match DelimitedLength(t[2..], q)
      case None => None
      case Some(n) => Some(n + 2)
  }

  // ----------------------------------------------------------------------- lexer

  /** What a position in the text remembers: the last character of the last significant
      lexeme ('\n' at the start of the text) and the white space met since. */
  datatype Context = Context(last: char, space: bool, newline: bool)
  {
    predicate RegexAllowed() { OpensRegex(last) || (newline && KeepsNewline(last)) }

    function After(x: Lexeme): Context {
      match x
      case Space => this.(space := true)
      case BlockComment(_) => this.(space := true)
      case Newline => this.(newline := true)
      case LineComment(_) => this
      case _ => Context(x.Last(), false, false)
    }
  }

  const START := Context('\n', false, true)

  function FirstLexeme(t: string, ctx: Context): (r: Option<Lexeme>)
    requires t != ""
    ensures r.Some? ==> |r.value.Text()| <= |t|
  {
    if t[0] == ' ' then Some(Space)
    else if t[0] == '\n' then Some(Newline)
    else if t[0] == '/' then
      if |t| > 1 && t[1] == '/' then Some(LineComment(t[2..][..LineLength(t[2..])]))
      else if |t| > 1 && t[1] == '*' then
        match BlockLength(t[2..])
        case None => None
        case Some(n) => Some(BlockComment(t[2..][..n]))
      else if ctx.RegexAllowed() then
        match DelimitedLength(t[1..], '/')
        case None => None
        case Some(n) => Some(Regex(t[1..][..n]))
      else Some(Plain('/'))
    else if IsQuote(t[0]) then
      match DelimitedLength(t[1..], t[0])
      case None => None
      case Some(n) => Some(Quoted(t[0], t[1..][..n]))
    else Some(Plain(t[0]))
  }

  /** The lexemes of `t`; nothing if a comment, string or regular expression is not closed. */
  function Lex(t: string, ctx: Context): Option<seq<Lexeme>>
    decreases |t|
  {
    if t == "" then Some([])
    else match FirstLexeme(t, ctx)
      case None => None
      case Some(x) =>
        match Lex(t[|x.Text()|..], ctx.After(x))
        case None => None
        case Some(xs) => Some([x] + xs)
  }

  // --------------------------------------------- the lexer inverts concatenation

  predicate WellFormed(x: Lexeme) {
    match x
    case Space => true
    case Newline => true
    case LineComment(b) => '\n' !in b
    case BlockComment(b) => BlockLength(b + "*/") == Some(|b|)
    case Plain(c) => c != ' ' && c != '\n' && !IsQuote(c)
    case Quoted(q, b) => IsQuote(q) && DelimitedLength(b + [q], q) == Some(|b|)
    case Regex(b) => b != "" && b[0] != '*' && DelimitedLength(b + "/", '/') == Some(|b|)
  }

  /** Slashes are read as the context says they must be. */
  predicate FitsContext(x: Lexeme, ctx: Context) {
    && (x.Regex? ==> ctx.RegexAllowed())
    && (x == Plain('/') ==> !ctx.RegexAllowed())
  }

  /** What follows does not change how `x` is read. */
  predicate FitsNext(x: Lexeme, t: string) {
    && (x == Plain('/') ==> t == "" || (t[0] != '/' && t[0] != '*'))
    && (x.LineComment? ==> t == "" || t[0] == '\n')
  }

  /** The lexeme sequences that survive being written out and read again. */
  predicate Canonical(xs: seq<Lexeme>, ctx: Context) {
    xs == [] || (
      && WellFormed(xs[0])
      && FitsContext(xs[0], ctx)
      && FitsNext(xs[0], TextOf(xs[1..]))
      && Canonical(xs[1..], ctx.After(xs[0]))
    )
  }

  lemma {:induction false} LineLocal(b: string, t: string)
    requires '\n' !in b && (t == "" || t[0] == '\n')
    ensures LineLength(b + t) == |b|
  {
    if b == "" {
      assert b + t == t;
    } else {
      assert (b + t)[1..] == b[1..] + t;
      LineLocal(b[1..], t);
    }
  }

  lemma {:induction false} BlockLocal(b: string, t: string)
    requires BlockLength(b + "*/") == Some(|b|)
    ensures BlockLength(b + "*/" + t) == Some(|b|)
  {
    if b != "" {
      assert (b + "*/")[1..] == b[1..] + "*/";
      assert (b + "*/" + t)[1..] == b[1..] + "*/" + t;
      BlockLocal(b[1..], t);
    }
  }

  /** A terminator found in a longer text is found in the part that ends with it. */
  lemma {:induction false} BlockCut(t: string)
    requires BlockLength(t).Some?
    ensures BlockLength(t[..BlockLength(t).value] + "*/") == Some(BlockLength(t).value)
  {
    var n := BlockLength(t).value;
    if n == 0 {
      assert t[..n] + "*/" == "*/";
    } else {
      BlockCut(t[1..]);
      assert (t[..n] + "*/")[1..] == t[1..][..n - 1] + "*/";
    }
  }

  lemma {:induction false} DelimitedLocal(b: string, q: char, t: string)
    requires DelimitedLength(b + [q], q) == Some(|b|)
    ensures DelimitedLength(b + [q] + t, q) == Some(|b|)
    decreases |b|
  {
    var s := b + [q];
    if b != "" {
      if b[0] != '\\' {
        assert s[1..] == b[1..] + [q] && (s + t)[1..] == b[1..] + [q] + t;
        DelimitedLocal(b[1..], q, t);
      } else if |b| > 1 {
        assert s[2..] == b[2..] + [q] && (s + t)[2..] == b[2..] + [q] + t;
        DelimitedLocal(b[2..], q, t);
      }
    }
  }

  lemma {:induction false} DelimitedCut(t: string, q: char)
    requires DelimitedLength(t, q).Some?
    ensures DelimitedLength(t[..DelimitedLength(t, q).value] + [q], q) == Some(DelimitedLength(t, q).value)
    decreases |t|
  {
    var n := DelimitedLength(t, q).value;
    if n == 0 {
      assert t[..n] + [q] == [q];
    } else {
      var k := if t[0] == '\\' then 2 else 1;
      DelimitedCut(t[k..], q);
      assert (t[..n] + [q])[k..] == t[k..][..n - k] + [q];
    }
  }

  /** `x` begins `t`, is well formed and sits in its place. */
  predicate ReadHere(x: Lexeme, t: string, ctx: Context) {
    var n := |x.Text()|;
    && n <= |t| && x.Text() == t[..n]
    && WellFormed(x) && FitsContext(x, ctx) && FitsNext(x, t[n..])
  }

  lemma LineCommentSound(t: string, ctx: Context)
    requires |t| > 1 && t[0] == '/' && t[1] == '/'
    ensures ReadHere(LineComment(t[2..][..LineLength(t[2..])]), t, ctx)
  {
    var n := LineLength(t[2..]);
    assert t[..2 + n] == "//" + t[2..][..n];
  }

  lemma BlockCommentSound(t: string, ctx: Context)
    requires |t| > 1 && t[0] == '/' && t[1] == '*' && BlockLength(t[2..]).Some?
    ensures ReadHere(BlockComment(t[2..][..BlockLength(t[2..]).value]), t, ctx)
  {
    var n := BlockLength(t[2..]).value;
    BlockCut(t[2..]);
    assert t[2..][n] == '*' && t[2..][n + 1] == '/';
    assert t[..4 + n] == "/*" + t[2..][..n] + "*/";
  }

  lemma QuotedSound(t: string, ctx: Context)
    requires t != "" && IsQuote(t[0]) && DelimitedLength(t[1..], t[0]).Some?
    ensures ReadHere(Quoted(t[0], t[1..][..DelimitedLength(t[1..], t[0]).value]), t, ctx)
  {
    var n := DelimitedLength(t[1..], t[0]).value;
    DelimitedCut(t[1..], t[0]);
    assert t[1..][n] == t[0];
    assert t[..2 + n] == [t[0]] + t[1..][..n] + [t[0]];
  }

  lemma RegexSound(t: string, ctx: Context)
    requires t != "" && t[0] == '/' && DelimitedLength(t[1..], '/').Some?
    requires ctx.RegexAllowed() && !(|t| > 1 && (t[1] == '/' || t[1] == '*'))
    ensures ReadHere(Regex(t[1..][..DelimitedLength(t[1..], '/').value]), t, ctx)
  {
    var n := DelimitedLength(t[1..], '/').value;
    DelimitedCut(t[1..], '/');
    assert t[1..][n] == '/';
    assert t[..2 + n] == "/" + t[1..][..n] + "/";
  }

  lemma FirstLexemeSound(t: string, ctx: Context)
    requires t != "" && FirstLexeme(t, ctx).Some?
    ensures ReadHere(FirstLexeme(t, ctx).value, t, ctx)
  {
    match FirstLexeme(t, ctx).value {
      case LineComment(_) => LineCommentSound(t, ctx);
      case BlockComment(_) => BlockCommentSound(t, ctx);
      case Quoted(_, _) => QuotedSound(t, ctx);
      case Regex(_) => RegexSound(t, ctx);
      case Space => assert t[..1] == " ";
      case Newline => assert t[..1] == "\n";
      case Plain(c) => assert t[..1] == [c];
    }
  }

  lemma LineCommentComplete(b: string, t: string, ctx: Context)
    requires WellFormed(LineComment(b)) && FitsNext(LineComment(b), t)
    ensures FirstLexeme(LineComment(b).Text() + t, ctx) == Some(LineComment(b))
  {
    var s := LineComment(b).Text() + t;
    LineLocal(b, t);
    assert s[2..] == b + t;
    assert s[2..][..|b|] == b;
  }

  lemma BlockCommentComplete(b: string, t: string, ctx: Context)
    requires WellFormed(BlockComment(b))
    ensures FirstLexeme(BlockComment(b).Text() + t, ctx) == Some(BlockComment(b))
  {
    var s := BlockComment(b).Text() + t;
    BlockLocal(b, t);
    assert s[2..] == b + "*/" + t;
    assert s[2..][..|b|] == b;
  }

  lemma {:induction false} QuotedComplete(q: char, b: string, t: string, ctx: Context)
    requires WellFormed(Quoted(q, b))
    ensures FirstLexeme(Quoted(q, b).Text() + t, ctx) == Some(Quoted(q, b))
  {
    var s := Quoted(q, b).Text() + t;
    var u := b + [q] + t;
    DelimitedLocal(b, q, t);
    assert s == [q] + u;
    assert s[0] == q && s[1..] == u && u[..|b|] == b;
  }

  lemma {:induction false} RegexComplete(b: string, t: string, ctx: Context)
    requires WellFormed(Regex(b)) && ctx.RegexAllowed()
    ensures FirstLexeme(Regex(b).Text() + t, ctx) == Some(Regex(b))
  {
    var u := b + "/" + t;
    DelimitedLocal(b, '/', t);
    assert DelimitedLength(u, '/') == Some(|b|);
    var s := Regex(b).Text() + t;
    assert s == ['/'] + u;
    assert s[1..] == u && u[..|b|] == b && s[1] == b[0];
    assert b[0] != '/' by {
      assert (b + "/")[0] == b[0];
    }
  }

  /** A lexeme in its place is read back. */
  lemma FirstLexemeComplete(x: Lexeme, t: string, ctx: Context)
    requires WellFormed(x) && FitsContext(x, ctx) && FitsNext(x, t)
    ensures FirstLexeme(x.Text() + t, ctx) == Some(x)
  {
    match x {
      case LineComment(b) => LineCommentComplete(b, t, ctx);
      case BlockComment(b) => BlockCommentComplete(b, t, ctx);
      case Quoted(q, b) => QuotedComplete(q, b, t, ctx);
      case Regex(b) => RegexComplete(b, t, ctx);
      case Space => assert (" " + t)[0] == ' ';
      case Newline => assert ("\n" + t)[0] == '\n';
      case Plain(c) => assert ([c] + t)[0] == c && ([c] + t)[1..] == t;
    }
  }

  /** Lexing is lossless: the lexemes spell the text, and they are canonical. */
  lemma {:induction false} LexSound(t: string, ctx: Context)
    requires Lex(t, ctx).Some?
    ensures TextOf(Lex(t, ctx).value) == t
    ensures Canonical(Lex(t, ctx).value, ctx)
    decreases |t|
  {
    if t != "" {
      var x := FirstLexeme(t, ctx).value;
      FirstLexemeSound(t, ctx);
      var n := |x.Text()|;
      assert t == t[..n] + t[n..];
      LexSound(t[n..], ctx.After(x));
      var xs := Lex(t, ctx).value;
      assert xs[1..] == Lex(t[n..], ctx.After(x)).value;
    }
  }

  /** Lexing inverts writing out, for exactly the canonical sequences (with `LexSound`). */
  lemma {:induction false} LexComplete(xs: seq<Lexeme>, ctx: Context)
    requires Canonical(xs, ctx)
    ensures Lex(TextOf(xs), ctx) == Some(xs)
  {
    if xs != [] {
      var x := xs[0];
      var t := TextOf(xs[1..]);
      FirstLexemeComplete(x, t, ctx);
      assert (x.Text() + t)[|x.Text()|..] == t;
      LexComplete(xs[1..], ctx.After(x));
      assert xs == [x] + xs[1..];
    }
  }
}
