/**
 What the minifier (helpers/jsmin.c) does, by the codes of the characters: which characters
 white space is kept between, which a slash opens a regular expression after, which begin and
 end a literal.
 */
module JsMinLaws {
  import opened Options
  import opened JsMinLexemes
  import opened JsMinSqueeze

  // ------------------------------------------------------------------ classes of codes

  /** Digits, letters, underscore, dollar sign, backslash, and what is above the tilde. */
  predicate Word(n: int) {
    48 <= n <= 57 || 65 <= n <= 90 || 97 <= n <= 122 || n == 95 || n == 36 || n == 92 || n > 126
  }

  /** What a linefeed is kept after: } ] ) + - " ' and words; a linefeed stands for the start. */
  predicate Leaves(n: int) {
    n == 125 || n == 93 || n == 41 || n == 43 || n == 45 || n == 34 || n == 39 || n == 10 || Word(n)
  }

  /** What it is kept before: { [ ( + - and words. */
  predicate Enters(n: int) { n == 123 || n == 91 || n == 40 || n == 43 || n == 45 || Word(n) }

  /** What a slash opens a regular expression after: ( , = : [ ! & | ? { } ; and the start. */
  predicate Operates(n: int) {
    || n == 40 || n == 44 || n == 61 || n == 58 || n == 91 || n == 33 || n == 38 || n == 124 || n == 63
    || n == 123 || n == 125 || n == 59 || n == 10
  }

  /** The code of a lexeme's last character. */
  function LastCode(x: Lexeme): int {
    x.Text()[|x.Text()| - 1] as int
  }

  lemma {:induction false} ClassesByCode(c: char)
    ensures IsAlphanum(c) <==> Word(c as int)
    ensures KeepsNewline(c) <==> Leaves(c as int)
    ensures NeedsNewline(c) <==> Enters(c as int)
    ensures OpensRegex(c) <==> Operates(c as int)
  {
  }

  lemma {:induction false} LastByCode(x: Lexeme)
    requires x.Significant()
    ensures x.Last() as int == LastCode(x)
  {
  }

  /** Control characters are read as spaces, and carriage returns as linefeeds. */
  lemma {:induction false} TranslatedByCode(s: string, i: nat)
    requires i < |s|
    ensures TranslateAll(s)[i] as int ==
            var n := s[i] as int; if n >= 32 then n else if n == 10 || n == 13 then 10 else 32
  {
  }

  // ------------------------------------------------------------------ white space

  predicate Blank(ws: seq<Lexeme>) { exists w :: w in ws && (w == Space || w.BlockComment?) }

  lemma {:induction false} BlankIsHasBlank(ws: seq<Lexeme>)
    ensures Blank(ws) <==> HasBlank(ws)
  {
    if ws != [] {
      BlankIsHasBlank(ws[1..]);
      assert ws == [ws[0]] + ws[1..];
      if HasBlank(ws[1..]) {
        var w :| w in ws[1..] && (w == Space || w.BlockComment?);
        assert w in ws;
      }
      if ws[0] == Space || ws[0].BlockComment? {
        assert ws[0] in ws;
      }
    }
  }

  /** What is written between two neighbouring lexemes that `ws` parts in the input. */
  function Parting(x: Lexeme, ws: seq<Lexeme>, y: Lexeme): string {
    if Newline in ws && Leaves(LastCode(x)) then
      if y.Regex? || (y.Plain? && Enters(y.c as int)) then "\n" else ""
    else if Blank(ws) && Word(LastCode(x)) && y.Plain? && Word(y.c as int) then " "
    else ""
  }

  lemma {:induction false} PartingIsBetween(x: Lexeme, ws: seq<Lexeme>, y: Lexeme)
    requires x.Significant() && y.Significant()
    ensures TextOf(Between(x, ws, y)) == Parting(x, ws, y)
  {
    ClassesByCode(x.Last());
    LastByCode(x);
    BlankIsHasBlank(ws);
    if y.Plain? {
      ClassesByCode(y.c);
    }
    assert TextOf([Newline]) == "\n" && TextOf([Space]) == " " && TextOf([]) == "";
  }

  lemma {:induction false} TextOfParts(most: seq<Lexeme>, x: Lexeme, gap: seq<Lexeme>, y: Lexeme, tail: seq<Lexeme>)
    ensures TextOf(most + [x] + gap + [y] + tail) == TextOf(most) + x.Text() + TextOf(gap) + y.Text() + TextOf(tail)
  {
    TextConcat(most + [x] + gap + [y], tail);
    TextConcat(most + [x] + gap, [y]);
    TextConcat(most + [x], gap);
    TextConcat(most, [x]);
    TextOfOne(x);
    TextOfOne(y);
  }

  lemma {:induction false} TextOfOne(x: Lexeme)
    ensures TextOf([x]) == x.Text()
  {
    assert [x][1..] == [];
    assert x.Text() + "" == x.Text();
  }

  /** The output of every readable input around two neighbouring lexemes: the first, then exactly
      the white space that the codes and what stood between them say, then the second. */
  lemma {:induction false} PartedInOutput(s: string, pre: seq<Lexeme>, x: Lexeme, ws: seq<Lexeme>, y: Lexeme,
                                          post: seq<Lexeme>) returns (before: string, after: string)
    requires Lex(TranslateAll(s), START) == Some(pre + [x] + ws + [y] + post)
    requires x.Significant() && y.Significant() && Insignificant(ws)
    ensures Minify(s) == Some(before + x.Text() + Parting(x, ws, y) + y.Text() + after)
  {
    SqueezeBetween(pre, x, ws, y, post, START);
    PartingIsBetween(x, ws, y);
    var head := Squeeze(pre + [x], START);
    var tail := Squeeze(post, Context(y.Last(), false, false));
    var most := head[..|head| - 1];
    assert head == most + [x];
    TextOfParts(most, x, Between(x, ws, y), y, tail);
    before, after := TextOf(most), TextOf(tail);
  }

  /** Two word characters parted in a readable input stay parted by exactly one white-space
      character; where either is no word character, no space stands between. */
  lemma {:induction false} WordsStayParted(s: string, pre: seq<Lexeme>, a: char, ws: seq<Lexeme>, b: char,
                                           post: seq<Lexeme>) returns (before: string, parting: string, after: string)
    requires Lex(TranslateAll(s), START) == Some(pre + [Plain(a)] + ws + [Plain(b)] + post) && Insignificant(ws)
    ensures Minify(s) == Some(before + [a] + parting + [b] + after)
    ensures Word(a as int) && Word(b as int) ==>
              parting == if Newline in ws then "\n" else if Blank(ws) then " " else ""
    ensures !(Word(a as int) && Word(b as int)) ==> ' ' !in parting
  {
    before, after := PartedInOutput(s, pre, Plain(a), ws, Plain(b), post);
    parting := Parting(Plain(a), ws, Plain(b));
    assert Plain(a).Text() == [a] && Plain(b).Text() == [b];
  }

  // ------------------------------------------------------------------ slashes

  /** The code of the last significant character before a point; at the start, a linefeed's. */
  function CodeBefore(pre: seq<Lexeme>): int {
    if pre == [] then 10
    else
      var x := pre[|pre| - 1];
      if x.Significant() then LastCode(x) else CodeBefore(pre[..|pre| - 1])
  }

  /** Has a linefeed been met since? The start counts as one. */
  predicate NewlineSince(pre: seq<Lexeme>) {
    pre == [] ||
    var x := pre[|pre| - 1];
    !x.Significant() && (x == Newline || NewlineSince(pre[..|pre| - 1]))
  }

  lemma {:induction false} ContextByCode(pre: seq<Lexeme>)
    ensures ContextAfter(pre, START).last as int == CodeBefore(pre)
    ensures ContextAfter(pre, START).newline == NewlineSince(pre)
  {
    if pre != [] {
      var most, x := pre[..|pre| - 1], pre[|pre| - 1];
      ContextByCode(most);
      assert pre == most + [x];
      ContextAfterConcat(most, [x], START);
      assert ContextAfter([x], ContextAfter(most, START)) == ContextAfter(most, START).After(x);
      if x.Significant() {
        LastByCode(x);
      }
    }
  }

  lemma {:induction false} CanonicalAt(pre: seq<Lexeme>, x: Lexeme, post: seq<Lexeme>, ctx: Context)
    requires Canonical(pre + [x] + post, ctx)
    ensures WellFormed(x) && FitsContext(x, ContextAfter(pre, ctx)) && FitsNext(x, TextOf(post))
  {
    var xs := pre + [x] + post;
    if pre == [] {
      assert xs == [x] + post && xs[1..] == post;
    } else {
      assert xs[1..] == pre[1..] + [x] + post;
      CanonicalAt(pre[1..], x, post, ctx.After(pre[0]));
    }
  }

  /** A slash that begins no comment opens a regular expression exactly after an operator, at the
      start, or on a new line after what a linefeed is kept after; otherwise it divides. */
  lemma {:induction false} SlashByCode(s: string, pre: seq<Lexeme>, x: Lexeme, post: seq<Lexeme>)
    requires Lex(TranslateAll(s), START) == Some(pre + [x] + post) && (x == Plain('/') || x.Regex?)
    ensures x.Regex? <==> Operates(CodeBefore(pre)) || (NewlineSince(pre) && Leaves(CodeBefore(pre)))
    ensures x == Plain('/') ==> post == [] || (TextOf(post)[0] as int != 47 && TextOf(post)[0] as int != 42)
  {
    LexSound(TranslateAll(s), START);
    CanonicalAt(pre, x, post, START);
    ContextByCode(pre);
    ClassesByCode(ContextAfter(pre, START).last);
  }

  /** A character on its own is no blank, no linefeed and no quote; a string begins with a quote. */
  lemma {:induction false} KindsByCode(s: string, pre: seq<Lexeme>, x: Lexeme, post: seq<Lexeme>)
    requires Lex(TranslateAll(s), START) == Some(pre + [x] + post)
    ensures x.Plain? ==> x.c as int !in {10, 32, 34, 39}
    ensures x.Quoted? ==> x.quote as int in {34, 39}
  {
    LexSound(TranslateAll(s), START);
    CanonicalAt(pre, x, post, START);
  }

  // ------------------------------------------------------------------ ends of literals

  /** The backslashes directly before a place. */
  function Backslashes(t: string, i: nat): nat
    requires i <= |t|
  {
    if i == 0 || t[i - 1] as int != 92 then 0 else 1 + Backslashes(t, i - 1)
  }

  /** A delimiter with an even number of backslashes before it. */
  predicate Closes(t: string, q: char, i: nat) { i < |t| && t[i] == q && Backslashes(t, i) % 2 == 0 }

  lemma {:induction false} BackslashesIn(t: string, k: nat, i: nat)
    requires k + i <= |t| && 1 <= k <= 2
    requires k == 1 ==> t[0] as int != 92
    requires k == 2 ==> t[0] as int == 92
    ensures Backslashes(t, k + i) % 2 == Backslashes(t[k..], i) % 2
    decreases i
  {
    if i > 0 {
      assert t[k..][i - 1] == t[k + i - 1];
      BackslashesIn(t, k, i - 1);
    } else if k == 2 {
      assert Backslashes(t, 1) == 1 + Backslashes(t, 0);
    }
  }

  /** A literal ends at the first delimiter that no backslash escapes, and is open if there is
      none. */
  lemma {:induction false} DelimitedByCode(t: string, q: char)
    requires q as int != 92
    ensures match DelimitedLength(t, q)
            case None => forall i: nat :: !Closes(t, q, i)
            case Some(n) => Closes(t, q, n) && forall i: nat :: i < n ==> !Closes(t, q, i)
    decreases |t|
  {
    if t != "" && t[0] != q {
      var k := if t[0] as int == 92 then 2 else 1;
      if k <= |t| {
        DelimitedByCode(t[k..], q);
        ClosesIn(t, q, k);
      }
    }
  }

  lemma {:induction false} ClosesIn(t: string, q: char, k: nat)
    requires q as int != 92 && t != "" && t[0] != q && 1 <= k <= 2 && k <= |t|
    requires k == if t[0] as int == 92 then 2 else 1
    ensures forall j: nat :: k <= j ==> (Closes(t, q, j) <==> Closes(t[k..], q, j - k))
    ensures forall j: nat :: j < k ==> !Closes(t, q, j)
  {
    forall j: nat | k <= j
      ensures Closes(t, q, j) <==> Closes(t[k..], q, j - k)
    {
      if j < |t| {
        BackslashesIn(t, k, j - k);
      }
    }
    if k == 2 {
      assert Backslashes(t, 1) == 1 + Backslashes(t, 0);
    }
  }

  /** A block comment ends at the first star and slash, and is open if there is none. */
  lemma {:induction false} BlockByCode(t: string)
    ensures match BlockLength(t)
            case None => forall i :: 0 <= i < |t| - 1 ==> !(t[i] as int == 42 && t[i + 1] as int == 47)
            case Some(n) =>
              && n + 1 < |t| && t[n] as int == 42 && t[n + 1] as int == 47
              && forall i :: 0 <= i < n ==> !(t[i] as int == 42 && t[i + 1] as int == 47)
  {
    if t != "" {
      BlockByCode(t[1..]);
      forall i | 0 < i < |t| - 1
        ensures t[i] == t[1..][i - 1] && t[i + 1] == t[1..][i]
      {
      }
    }
  }
}
