/**
 What the minifier (helpers/jsmin.c) writes, as a function of the lexemes it read:
 every significant lexeme, and between two of them at most one white-space character,
 chosen from the pair and the white space that stood between them.
 */
module JsMinSqueeze {
  import opened Options
  import opened JsMinLexemes

  /** The white space kept before `y`. */
  function Gap(ctx: Context, y: Lexeme): (g: seq<Lexeme>)
    ensures |g| <= 1
  {
    if ctx.newline && KeepsNewline(ctx.last) then
      if y.Regex? || (y.Plain? && NeedsNewline(y.c)) then [Newline] else []
    else if ctx.space && IsAlphanum(ctx.last) && y.Plain? && IsAlphanum(y.c) then [Space]
    else []
  }

  function Squeeze(xs: seq<Lexeme>, ctx: Context): seq<Lexeme> {
    if xs == [] then []
    else if xs[0].Significant() then Gap(ctx, xs[0]) + [xs[0]] + Squeeze(xs[1..], ctx.After(xs[0]))
    else Squeeze(xs[1..], ctx.After(xs[0]))
  }

  /** The output for `t`, read and written from `ctx` on. */
  function MinifyFrom(t: string, ctx: Context): Option<string> {
    match Lex(t, ctx)
    case None => None
    case Some(xs) => Some(TextOf(Squeeze(xs, ctx)))
  }

  /** The output for a whole input; nothing where the filter exits with an error. */
  function Minify(s: string): Option<string> {
    MinifyFrom(TranslateAll(s), START)
  }

  // ----------------------------------------------------------------- preservation

  function SignificantOf(xs: seq<Lexeme>): seq<Lexeme> {
    if xs == [] then []
    else (if xs[0].Significant() then [xs[0]] else []) + SignificantOf(xs[1..])
  }

  lemma {:induction false} SignificantConcat(xs: seq<Lexeme>, ys: seq<Lexeme>)
    ensures SignificantOf(xs + ys) == SignificantOf(xs) + SignificantOf(ys)
  {
    if xs == [] {
      assert xs + ys == ys;
    } else {
      assert (xs + ys)[1..] == xs[1..] + ys && (xs + ys)[0] == xs[0];
      SignificantConcat(xs[1..], ys);
      var first := if xs[0].Significant() then [xs[0]] else [];
      assert first + (SignificantOf(xs[1..]) + SignificantOf(ys)) == first + SignificantOf(xs[1..]) + SignificantOf(ys);
    }
  }

  lemma {:induction false} TextConcat(xs: seq<Lexeme>, ys: seq<Lexeme>)
    ensures TextOf(xs + ys) == TextOf(xs) + TextOf(ys)
  {
    if xs == [] {
      assert xs + ys == ys;
    } else {
      assert (xs + ys)[1..] == xs[1..] + ys;
      TextConcat(xs[1..], ys);
    }
  }

  lemma {:induction false} SqueezeKeepsContent(xs: seq<Lexeme>, ctx: Context)
    ensures SignificantOf(Squeeze(xs, ctx)) == SignificantOf(xs)
  {
    if xs != [] {
      SqueezeKeepsContent(xs[1..], ctx.After(xs[0]));
      if xs[0].Significant() {
        var g := Gap(ctx, xs[0]);
        SignificantConcat(g + [xs[0]], Squeeze(xs[1..], ctx.After(xs[0])));
        SignificantConcat(g, [xs[0]]);
        assert SignificantOf(g) == [];
        assert SignificantOf([xs[0]]) == [xs[0]] + SignificantOf([]);
      }
    }
  }

  /** The input divides without loss into lexemes, and the output is spelt by the same
      significant lexemes in the same order, with nothing else but white space. */
  lemma {:induction false} MinifyPreservesContent(s: string)
    requires Minify(s).Some?
    ensures var xs := Lex(TranslateAll(s), START).value;
            var ys := Squeeze(xs, START);
            && TextOf(xs) == TranslateAll(s) && Canonical(xs, START)
            && TextOf(ys) == Minify(s).value
            && SignificantOf(ys) == SignificantOf(xs)
            && (forall y <- ys :: y.Significant() || y == Space || y == Newline)
  {
    var xs := Lex(TranslateAll(s), START).value;
    LexSound(TranslateAll(s), START);
    SqueezeKeepsContent(xs, START);
    NormalForm(xs, START);
    var ys := Squeeze(xs, START);
    forall y | y in ys
      ensures y.Significant() || y == Space || y == Newline
    {
      var i :| 0 <= i < |ys| && ys[i] == y;
      assert WhiteSpaceAt(ys, i, START.last);
    }
  }

  // ------------------------------------------------------------------ normal form

  /** Outside literals, a space stands between two alphanumerics, and a linefeed between a
      character that keeps it (or the start) and one that needs it (or a regular expression).
      `before` is the last significant character written before `ys`. */
  predicate WhiteSpaceAt(ys: seq<Lexeme>, i: nat, before: char)
    requires i < |ys|
  {
    && (ys[i].Significant() || ys[i] == Space || ys[i] == Newline)
    && (!ys[i].Significant() ==>
          && i + 1 < |ys| && ys[i + 1].Significant()
          && (i == 0 || ys[i - 1].Significant())
          && var left := if i == 0 then before else ys[i - 1].Last();
             if ys[i] == Space then IsAlphanum(left) && ys[i + 1].Plain? && IsAlphanum(ys[i + 1].c)
             else KeepsNewline(left) && (ys[i + 1].Regex? || (ys[i + 1].Plain? && NeedsNewline(ys[i + 1].c))))
  }

  lemma {:induction false} NormalForm(xs: seq<Lexeme>, ctx: Context)
    ensures forall i :: 0 <= i < |Squeeze(xs, ctx)| ==> WhiteSpaceAt(Squeeze(xs, ctx), i, ctx.last)
  {
    if xs != [] {
      var x := xs[0];
      var tail := Squeeze(xs[1..], ctx.After(x));
      NormalForm(xs[1..], ctx.After(x));
      if x.Significant() {
        var g := Gap(ctx, x);
        var ys := g + [x] + tail;
        forall i | 0 <= i < |ys|
          ensures WhiteSpaceAt(ys, i, ctx.last)
        {
          if i > |g| {
            assert WhiteSpaceAt(tail, i - |g| - 1, x.Last());
          }
        }
      }
    }
  }

  // ------------------------------------------------------------------- separation

  predicate Insignificant(ws: seq<Lexeme>) {
    forall w <- ws :: !w.Significant()
  }

  /** Is there a space, or a comment that reads as one? */
  predicate HasBlank(ws: seq<Lexeme>) {
    ws != [] && (ws[0] == Space || ws[0].BlockComment? || HasBlank(ws[1..]))
  }

  /** The white space kept between two neighbouring significant lexemes, from what stood
      between them in the input. */
  function Between(x: Lexeme, ws: seq<Lexeme>, y: Lexeme): seq<Lexeme>
    requires x.Significant() && y.Significant()
  {
    if Newline in ws && KeepsNewline(x.Last()) then
      if y.Regex? || (y.Plain? && NeedsNewline(y.c)) then [Newline] else []
    else if HasBlank(ws) && IsAlphanum(x.Last()) && y.Plain? && IsAlphanum(y.c)
    then [Space]
    else []
  }

  function ContextAfter(xs: seq<Lexeme>, ctx: Context): Context {
    if xs == [] then ctx else ContextAfter(xs[1..], ctx.After(xs[0]))
  }

  lemma {:induction false} SqueezeConcat(xs: seq<Lexeme>, ys: seq<Lexeme>, ctx: Context)
    ensures Squeeze(xs + ys, ctx) == Squeeze(xs, ctx) + Squeeze(ys, ContextAfter(xs, ctx))
  {
    if xs == [] {
      assert xs + ys == ys;
    } else {
      assert (xs + ys)[1..] == xs[1..] + ys;
      SqueezeConcat(xs[1..], ys, ctx.After(xs[0]));
    }
  }

  lemma {:induction false} ContextAfterConcat(xs: seq<Lexeme>, ys: seq<Lexeme>, ctx: Context)
    ensures ContextAfter(xs + ys, ctx) == ContextAfter(ys, ContextAfter(xs, ctx))
  {
    if xs == [] {
      assert xs + ys == ys;
    } else {
      assert (xs + ys)[1..] == xs[1..] + ys;
      ContextAfterConcat(xs[1..], ys, ctx.After(xs[0]));
    }
  }

  lemma {:induction false} ContextAfterWhiteSpace(ws: seq<Lexeme>, ctx: Context)
    requires Insignificant(ws)
    ensures ContextAfter(ws, ctx) == Context(ctx.last, ctx.space || HasBlank(ws), ctx.newline || Newline in ws)
    ensures Squeeze(ws, ctx) == []
  {
    if ws != [] {
      ContextAfterWhiteSpace(ws[1..], ctx.After(ws[0]));
      assert !ws[0].Significant();
      assert ctx.After(ws[0]) == Context(ctx.last, ctx.space || ws[0] == Space || ws[0].BlockComment?,
                                         ctx.newline || ws[0] == Newline);
      assert Newline in ws <==> ws[0] == Newline || Newline in ws[1..];
    } else {
      assert ctx == Context(ctx.last, ctx.space, ctx.newline);
    }
  }

  /** The output around any two neighbouring significant lexemes: each is written once, and
      between them exactly `Between`. */
  lemma SqueezeBetween(pre: seq<Lexeme>, x: Lexeme, ws: seq<Lexeme>, y: Lexeme, post: seq<Lexeme>, ctx: Context)
    requires x.Significant() && Insignificant(ws) && y.Significant()
    ensures Squeeze(pre + [x] + ws + [y] + post, ctx)
         == Squeeze(pre + [x], ctx) + Between(x, ws, y) + [y] + Squeeze(post, Context(y.Last(), false, false))
    ensures Squeeze(pre + [x], ctx) != [] && Squeeze(pre + [x], ctx)[|Squeeze(pre + [x], ctx)| - 1] == x
  {
    var cx := Context(x.Last(), false, false);
    SqueezeConcat(pre, [x], ctx);
    assert Squeeze([x], ContextAfter(pre, ctx)) == Gap(ContextAfter(pre, ctx), x) + [x];
    ContextAfterSignificant(pre, x, ctx);
    var tail := ws + ([y] + post);
    assert pre + [x] + ws + [y] + post == (pre + [x]) + tail;
    SqueezeConcat(pre + [x], tail, ctx);
    SqueezeConcat(ws, [y] + post, cx);
    ContextAfterWhiteSpace(ws, cx);
    SqueezeNext(ContextAfter(ws, cx), y, post);
    assert Gap(ContextAfter(ws, cx), y) == Between(x, ws, y);
  }

  lemma ContextAfterSignificant(pre: seq<Lexeme>, x: Lexeme, ctx: Context)
    requires x.Significant()
    ensures ContextAfter(pre + [x], ctx) == Context(x.Last(), false, false)
  {
    ContextAfterConcat(pre, [x], ctx);
    assert ContextAfter([x], ContextAfter(pre, ctx)) == ContextAfter([], ContextAfter(pre, ctx).After(x));
  }

  lemma SqueezeNext(ctx: Context, y: Lexeme, post: seq<Lexeme>)
    requires y.Significant()
    ensures Squeeze([y] + post, ctx) == Gap(ctx, y) + [y] + Squeeze(post, Context(y.Last(), false, false))
  {
    assert ([y] + post)[1..] == post;
  }

  /** Two alphanumerics with a space, a linefeed or a block comment between them in the input
      have exactly one white-space character between them in the output. */
  lemma {:induction false} AlphanumericsStaySeparated(pre: seq<Lexeme>, x: Lexeme, ws: seq<Lexeme>, y: Lexeme,
                                                      post: seq<Lexeme>, ctx: Context)
    requires x.Plain? && IsAlphanum(x.c) && y.Plain? && IsAlphanum(y.c) && Insignificant(ws)
    requires HasBlank(ws) || Newline in ws
    ensures var before := Squeeze(pre + [x], ctx);
            && before != [] && before[|before| - 1] == x
            && Squeeze(pre + [x] + ws + [y] + post, ctx)
               == before + [if Newline in ws then Newline else Space] + [y] + Squeeze(post, Context(y.c, false, false))
  {
    SqueezeBetween(pre, x, ws, y, post, ctx);
    assert Between(x, ws, y) == [if Newline in ws then Newline else Space];
  }

  // ----------------------------------------------------------------------- length

  function Comments(xs: seq<Lexeme>): nat {
    if xs == [] then 0 else (if xs[0].Comment() then 1 else 0) + Comments(xs[1..])
  }

  /** One if a white-space character may still be owed. */
  function Owed(ctx: Context): nat {
    if (ctx.newline && KeepsNewline(ctx.last)) || (ctx.space && IsAlphanum(ctx.last)) then 1 else 0
  }

  lemma {:induction false} SqueezeLength(xs: seq<Lexeme>, ctx: Context)
    ensures |TextOf(Squeeze(xs, ctx))| + 2 * Comments(xs) <= |TextOf(xs)| + Owed(ctx)
  {
    if xs != [] {
      var x := xs[0];
      SqueezeLength(xs[1..], ctx.After(x));
      if x.Significant() {
        var g := Gap(ctx, x);
        TextConcat(g + [x], Squeeze(xs[1..], ctx.After(x)));
        TextConcat(g, [x]);
        assert TextOf([x]) == x.Text();
        assert |TextOf(g)| <= Owed(ctx);
      }
    }
  }

  /** The output is at most one character longer than the input, and each comment in the
      input makes it at least two characters shorter than that. */
  lemma MinifyLength(s: string)
    requires Minify(s).Some?
    ensures |Minify(s).value| + 2 * Comments(Lex(TranslateAll(s), START).value) <= |s| + 1
  {
    var xs := Lex(TranslateAll(s), START).value;
    LexSound(TranslateAll(s), START);
    SqueezeLength(xs, START);
  }

  // ------------------------------------------------------------------ idempotence

  /** A division slash written directly before a slash or a star. */
  predicate SlashPairAt(ys: seq<Lexeme>, i: nat)
    requires i + 1 < |ys|
  {
    ys[i] == Plain('/') && (ys[i + 1].First() == '/' || ys[i + 1].First() == '*')
  }

  predicate HasSlashPair(ys: seq<Lexeme>) {
    exists i :: 0 <= i && i + 1 < |ys| && SlashPairAt(ys, i)
  }

  /** The context in which the output is read again, before the gap that precedes `last`'s
      successor. */
  function Base(last: char): Context {
    if last == '\n' then START else Context(last, false, false)
  }

  /** Canonical but for slash pairs. */
  predicate Readable(ys: seq<Lexeme>, ctx: Context) {
    ys == [] || (
      && WellFormed(ys[0]) && !ys[0].Comment()
      && FitsContext(ys[0], ctx)
      && Readable(ys[1..], ctx.After(ys[0]))
    )
  }

  /** The output reads back as written, up to slash pairs, and squeezing it changes nothing. */
  lemma {:induction false} SqueezeReadable(xs: seq<Lexeme>, ctx: Context)
    requires Canonical(xs, ctx)
    requires ctx.last == '\n' ==> ctx.newline
    ensures Readable(Squeeze(xs, ctx), Base(ctx.last))
    ensures Squeeze(Squeeze(xs, ctx), Base(ctx.last)) == Squeeze(xs, ctx)
  {
    if xs != [] {
      var x := xs[0];
      var ctx' := ctx.After(x);
      SqueezeReadable(xs[1..], ctx');
      if x.Significant() {
        assert x.Last() != '\n';
        var tail := Squeeze(xs[1..], ctx');
        GapStable(ctx, x, tail);
      }
    }
  }

  lemma GapStable(ctx: Context, x: Lexeme, tail: seq<Lexeme>)
    requires x.Significant() && WellFormed(x) && FitsContext(x, ctx)
    requires ctx.last == '\n' ==> ctx.newline
    requires Readable(tail, Base(x.Last())) && Squeeze(tail, Base(x.Last())) == tail
    ensures Readable(Gap(ctx, x) + [x] + tail, Base(ctx.last))
    ensures Squeeze(Gap(ctx, x) + [x] + tail, Base(ctx.last)) == Gap(ctx, x) + [x] + tail
  {
    var g := Gap(ctx, x);
    var base := Base(ctx.last);
    var xt := [x] + tail;
    assert xt[1..] == tail;
    if g == [] {
      assert g + [x] + tail == xt;
      assert base.After(x) == Base(x.Last());
      assert Gap(base, x) == [];
    } else {
      var ys := g + [x] + tail;
      assert ys[0] == g[0] && ys[1..] == xt;
      var mid := base.After(g[0]);
      assert mid.After(x) == Base(x.Last());
      assert Gap(mid, x) == g;
      assert Squeeze(xt, mid) == g + [x] + tail;
    }
  }

  lemma {:induction false} TextFirst(ys: seq<Lexeme>)
    requires ys != []
    ensures TextOf(ys)[0] == ys[0].First()
  {
  }

  lemma {:induction false} ReadableCanonical(ys: seq<Lexeme>, ctx: Context)
    requires Readable(ys, ctx) && !HasSlashPair(ys)
    ensures Canonical(ys, ctx)
  {
    if ys != [] {
      forall i | 0 <= i && i + 1 < |ys[1..]|
        ensures !SlashPairAt(ys[1..], i)
      {
        assert !SlashPairAt(ys, i + 1);
      }
      ReadableCanonical(ys[1..], ctx.After(ys[0]));
      if |ys| > 1 {
        assert !SlashPairAt(ys, 0);
        TextFirst(ys[1..]);
      }
    }
  }

  /** A slash pair is read again as the start of a comment. */
  lemma {:induction false} SlashPairReadsAsComment(ys: seq<Lexeme>, ctx: Context)
    requires Readable(ys, ctx) && HasSlashPair(ys)
    ensures Lex(TextOf(ys), ctx).Some? ==> Comments(Lex(TextOf(ys), ctx).value) > 0
  {
    var y := ys[0];
    var t := TextOf(ys);
    var rest := TextOf(ys[1..]);
    TextFirst(ys[1..]);
    if SlashPairAt(ys, 0) {
      assert t[0] == '/' && t[1] == rest[0];
    } else {
      var i :| 0 <= i && i + 1 < |ys| && SlashPairAt(ys, i);
      assert SlashPairAt(ys[1..], i - 1);
      assert FitsNext(y, rest);
      FirstLexemeComplete(y, rest, ctx);
      assert t[|y.Text()|..] == rest;
      SlashPairReadsAsComment(ys[1..], ctx.After(y));
    }
  }

  lemma {:induction false} CanonicalClean(t: string)
    requires forall c <- t :: Translate(c) == c
    ensures TranslateAll(t) == t
  {
  }

  lemma {:induction false} SqueezeClean(xs: seq<Lexeme>, ctx: Context)
    requires forall c <- TextOf(xs) :: Translate(c) == c
    ensures forall c <- TextOf(Squeeze(xs, ctx)) :: Translate(c) == c
  {
    if xs != [] {
      var x := xs[0];
      assert forall c <- x.Text() :: c in TextOf(xs);
      assert forall c <- TextOf(xs[1..]) :: c in TextOf(xs);
      SqueezeClean(xs[1..], ctx.After(x));
      if x.Significant() {
        var g := Gap(ctx, x);
        TextConcat(g + [x], Squeeze(xs[1..], ctx.After(x)));
        TextConcat(g, [x]);
        assert TextOf([x]) == x.Text();
        assert g == [] || TextOf(g) == "\n" || TextOf(g) == " ";
      }
    }
  }

  lemma {:induction false} SlashPairNext(y: Lexeme, ys: seq<Lexeme>)
    ensures HasSlashPair([y] + ys) <==> (ys != [] && SlashPairAt([y] + ys, 0)) || HasSlashPair(ys)
  {
    var all := [y] + ys;
    if HasSlashPair(ys) {
      var i :| 0 <= i && i + 1 < |ys| && SlashPairAt(ys, i);
      assert SlashPairAt(all, i + 1);
    }
    if HasSlashPair(all) {
      var i :| 0 <= i && i + 1 < |all| && SlashPairAt(all, i);
      assert i > 0 ==> SlashPairAt(ys, i - 1);
    }
  }

  /** No white space is kept after a slash. */
  lemma {:induction false} NothingAfterSlash(xs: seq<Lexeme>, ctx: Context)
    requires ctx.last == '/'
    ensures (Squeeze(xs, ctx) == [] && SignificantOf(xs) == []) ||
            (Squeeze(xs, ctx) != [] && SignificantOf(xs) != [] && Squeeze(xs, ctx)[0] == SignificantOf(xs)[0])
  {
    if xs != [] && !xs[0].Significant() {
      NothingAfterSlash(xs[1..], ctx.After(xs[0]));
    }
  }

  lemma {:induction false} WhiteSpaceMakesNoPair(g: seq<Lexeme>, ys: seq<Lexeme>)
    requires |g| <= 1 && forall y <- g :: y == Space || y == Newline
    ensures HasSlashPair(g + ys) <==> HasSlashPair(ys)
  {
    if g == [] {
      assert g + ys == ys;
    } else {
      assert g == [g[0]];
      SlashPairNext(g[0], ys);
      assert g[0] in g && (g + ys)[0] == g[0];
    }
  }

  /** The slash pairs of the output are those of the input without its white space and comments. */
  lemma {:induction false} SlashPairsOfInput(xs: seq<Lexeme>, ctx: Context)
    ensures HasSlashPair(Squeeze(xs, ctx)) <==> HasSlashPair(SignificantOf(xs))
  {
    if xs != [] {
      var x := xs[0];
      var tail := Squeeze(xs[1..], ctx.After(x));
      SlashPairsOfInput(xs[1..], ctx.After(x));
      if x.Significant() {
        var g := Gap(ctx, x);
        assert g + [x] + tail == g + ([x] + tail);
        WhiteSpaceMakesNoPair(g, [x] + tail);
        SlashPairNext(x, tail);
        SlashPairNext(x, SignificantOf(xs[1..]));
        if x == Plain('/') {
          NothingAfterSlash(xs[1..], ctx.After(x));
        }
      } else {
        assert SignificantOf(xs) == SignificantOf(xs[1..]);
      }
    }
  }

  /** Minifying twice is minifying once exactly when no division slash of the input has a slash
      or a star next, white space and comments aside. */
  lemma MinifyIdempotent(s: string)
    requires Minify(s).Some?
    ensures Minify(Minify(s).value) == Minify(s) <==> !HasSlashPair(SignificantOf(Lex(TranslateAll(s), START).value))
  {
    MinifyIdempotentOnOutput(s);
    SlashPairsOfInput(Lex(TranslateAll(s), START).value, START);
  }

  /** For one, "/ /b" after an operand is minified to a division that is read again as a
      comment. */
  lemma {:induction false} IdempotenceFails(a: char, s: string)
    requires WellFormed(Plain(a)) && !OpensRegex(a) && a != '/' && Translate(a) == a
    requires s == [a] + "/ /b"
    ensures Minify(s).Some? && Minify(Minify(s).value) != Minify(s)
  {
    DivisionsRead(a);
    var tail := [Plain('/'), Space, Plain('/'), Plain('b')];
    var xs := [Plain(a)] + tail;
    assert xs[1..] == tail;
    assert TextOf(xs) == s;
    CanonicalClean(s);
    LexComplete(xs, START);
    assert SignificantOf(xs) == [Plain(a)] + [Plain('/'), Plain('/'), Plain('b')];
    assert SlashPairAt(SignificantOf(xs), 1);
    MinifyIdempotent(s);
  }

  lemma DivisionsRead(a: char)
    requires !OpensRegex(a)
    ensures var tail := [Plain('/'), Space, Plain('/'), Plain('b')];
            && TextOf(tail) == "/ /b" && Canonical(tail, Context(a, false, false))
            && SignificantOf(tail) == [Plain('/'), Plain('/'), Plain('b')]
  {
    var xs4 := [Plain('b')];
    var xs3 := [Plain('/'), Plain('b')];
    var xs2 := [Space, Plain('/'), Plain('b')];
    var xs1 := [Plain('/'), Space, Plain('/'), Plain('b')];
    assert xs3[1..] == xs4 && xs2[1..] == xs3 && xs1[1..] == xs2;
    assert TextOf(xs4) == "b" && TextOf(xs3) == "/b" && TextOf(xs2) == " /b";
    assert Canonical(xs4, Context('/', false, false));
    assert SignificantOf(xs4) == xs4;
    assert SignificantOf(xs3) == xs3;
    assert SignificantOf(xs2) == xs3;
  }

  lemma MinifyIdempotentOnOutput(s: string)
    requires Minify(s).Some?
    ensures var ys := Squeeze(Lex(TranslateAll(s), START).value, START);
            Minify(Minify(s).value) == Minify(s) <==> !HasSlashPair(ys)
  {
    var t := TranslateAll(s);
    var xs := Lex(t, START).value;
    var ys := Squeeze(xs, START);
    var u := TextOf(ys);
    LexSound(t, START);
    assert forall c <- t :: Translate(c) == c;
    SqueezeClean(xs, START);
    CanonicalClean(u);
    SqueezeReadable(xs, START);
    if HasSlashPair(ys) {
      SlashPairReadsAsComment(ys, START);
      if Minify(u).Some? {
        MinifyLength(u);
      }
    } else {
      ReadableCanonical(ys, START);
      LexComplete(ys, START);
    }
  }
}
