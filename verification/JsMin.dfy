/**
 The minifier's own loops (helpers/jsmin.c): `get`, `peek`, `next`, `action` and `jsmin`
 over the standard streams, proved against the functions of `JsMinFilter`. `exit(1)`
 is the result `ok == false`.
 */
module JsMin {
  import opened Options
  import opened JsMinLexemes
  import opened JsMinSqueeze
  import opened JsMinFilter

  // ------------------------------------------------- one character of each loop

  /** What follows a block comment whose opening has been read. */
  ghost function AfterBlock(t: string): Option<string> {
    match BlockLength(t)
    case None => None
    case Some(n) => Some(t[n + 2..])
  }

  lemma FetchLine(t: string)
    requires |t| > 1 && t[0] == '/' && t[1] == '/'
    ensures var r := AfterLine(t[1..][1..]);
            Fetch(t) == Some(if r == "" then (Eof, "") else (Chr(r[0]), r[1..]))
  {
    assert t[1..][1..] == t[2..];
  }

  lemma FetchBlock(t: string)
    requires |t| > 1 && t[0] == '/' && t[1] == '*'
    ensures Fetch(t) == match AfterBlock(t[1..][1..]) case None => None case Some(r) => Some((Chr(' '), r))
  {
    assert t[1..][1..] == t[2..];
  }

  /** What a line comment leaves, from its second slash on: the linefeed and the rest. */
  ghost function AfterLine(t: string): string { t[LineLength(t)..] }

  lemma AfterLineStep(t: string)
    requires t != "" && t[0] != '\n'
    ensures AfterLine(t) == AfterLine(t[1..])
  {
    assert t[1 + LineLength(t[1..])..] == t[1..][LineLength(t[1..])..];
  }

  lemma AfterBlockEnd(t: string)
    requires |t| > 1 && t[0] == '*' && t[1] == '/'
    ensures AfterBlock(t) == Some(t[1..][1..])
  {
    assert t[1..][1..] == t[2..];
  }

  lemma AfterBlockStep(t: string)
    requires t != "" && !(t[0] == '*' && |t| > 1 && t[1] == '/')
    ensures AfterBlock(t) == AfterBlock(t[1..])
  {
    if BlockLength(t[1..]).Some? {
      assert t[BlockLength(t).value + 2..] == t[1..][BlockLength(t[1..]).value + 2..];
    }
  }

  /** `before` with the text up to the next unescaped `q` added, and what follows that `q`. */
  ghost function Copied(before: string, t: string, q: char): Option<(string, string)> {
    match DelimitedLength(t, q)
    case None => None
    case Some(n) => Some((before + t[..n], t[n + 1..]))
  }

  lemma CopiedEnd(before: string, t: string)
    requires t != ""
    ensures Copied(before, t, t[0]) == Some((before, t[1..]))
  {
    assert before + t[..0] == before;
  }

  lemma CopiedStep(before: string, t: string, q: char)
    requires t != "" && t[0] != q && t[0] != '\\'
    ensures Copied(before, t, q) == Copied(before + [t[0]], t[1..], q)
  {
    if DelimitedLength(t[1..], q).Some? {
      var n := DelimitedLength(t, q).value;
      assert t[n + 1..] == t[1..][n..];
      assert before + t[..n] == before + [t[0]] + t[1..][..n - 1];
    }
  }

  lemma CopiedEscape(before: string, t: string, q: char)
    requires |t| > 1 && t[0] != q && t[0] == '\\'
    ensures Copied(before, t, q) == Copied(before + [t[0]] + [t[1]], t[1..][1..], q)
  {
    assert t[1..][1..] == t[2..];
    if DelimitedLength(t[2..], q).Some? {
      var n := DelimitedLength(t, q).value;
      assert t[n + 1..] == t[2..][n - 1..];
      assert before + t[..n] == before + [t[0]] + [t[1]] + t[2..][..n - 2];
    }
  }

  lemma ShiftWritten(before: string, t: string, q: char)
    ensures match DelimitedLength(t, q)
            case None => Copied(before + [q], t, q) == None
            case Some(n) => Copied(before + [q], t, q) == Some((before + ([q] + t[..n]), t[n + 1..]))
  {
    if DelimitedLength(t, q).Some? {
      var n := DelimitedLength(t, q).value;
      assert before + [q] + t[..n] == before + ([q] + t[..n]);
    }
  }

  /** `Refill` in the steps that `RefillB` takes it in. */
  lemma RefillWritten(before: string, a: Symbol, t: string)
    ensures match Fetch(t)
            case None => Refill(a, t) == None
            case Some((b, r)) =>
              if b == Chr('/') && a.Chr? && OpensRegex(a.c) then
                match Copied(before + [a.c] + ['/'], r, '/')
                case None => Refill(a, t) == None
                case Some((w, r')) =>
                  match Fetch(r')
                  case None => Refill(a, t) == None
                  case Some((b', r'')) =>
                    && Refill(a, t).Some? && Refill(a, t).value.(written := "") == Effect("", Chr('/'), b', r'')
                    && before + Refill(a, t).value.written == w
              else
                Refill(a, t) == Some(Effect("", a, b, r)) && before + "" == before
  {
    match Fetch(t) {
      case None =>
      case Some((b, r)) =>
        if b == Chr('/') && a.Chr? && OpensRegex(a.c) && DelimitedLength(r, '/').Some? {
          var n := DelimitedLength(r, '/').value;
          assert before + [a.c] + ['/'] + r[..n] == before + ([a.c] + "/" + r[..n]);
        }
    }
  }

  lemma Reassociate(s: string, t: string, u: string, v: string)
    ensures s + (t + u + v) == ((s + t) + u) + v
  {
  }

  /** `Act` in the steps that `Action` takes it in. */
  lemma ActWritten(before: string, d: int, a: Symbol, b: Symbol, t: string)
    requires 1 <= d <= 3 && (d == 1 ==> a.Chr?)
    ensures var start := if d == 1 then before + [a.c] else before;
            match if d <= 2 then Shift(b, t) else Some(Effect("", a, b, t))
            case None => Act(d, a, b, t) == None
            case Some(e) =>
              match Refill(e.a, e.rest)
              case None => Act(d, a, b, t) == None
              case Some(f) =>
                && Act(d, a, b, t).Some?
                && Act(d, a, b, t).value.(written := "") == f.(written := "")
                && before + Act(d, a, b, t).value.written
                   == (if d <= 2 then start + e.written else start) + f.written
  {
    match if d <= 2 then Shift(b, t) else Some(Effect("", a, b, t)) {
      case None =>
      case Some(e) =>
        match Refill(e.a, e.rest) {
          case None =>
          case Some(f) =>
            Reassociate(before, if d == 1 then [a.c] else "", e.written, f.written);
            assert before + "" == before;
        }
    }
  }

  class Minifier {
    const input: string
    var position: nat
    var theA: Symbol
    var theB: Symbol
    var theLookahead: Symbol
    var output: string
    /** What is still to be read, as `Get` will deliver it. */
    ghost var rest: string

    constructor (input: string)
      ensures this.input == input
      ensures Valid() && rest == TranslateAll(input) && output == ""
    {
      this.input := input;
      position := 0;
      theA, theB, theLookahead := Eof, Eof, Eof;
      output := "";
      rest := TranslateAll(input);
      new;
      assert input[0..] == input;
    }

    ghost predicate Valid()
      reads this
    {
      && position <= |input|
      && (theLookahead.Chr? ==> Translate(theLookahead.c) == theLookahead.c)
      && rest == (if theLookahead.Chr? then [theLookahead.c] else "") + TranslateAll(input[position..])
    }

    method Get() returns (c: Symbol)
      requires Valid()
      modifies this`position, this`theLookahead, this`rest
      ensures Valid()
      ensures if old(rest) == "" then c == Eof && rest == ""
              else c == Chr(old(rest)[0]) && rest == old(rest)[1..]
      ensures theLookahead == Eof
      ensures c.Chr? ==> c.c >= ' ' || c.c == '\n'
    {
      c := theLookahead;
      theLookahead := Eof;
      if c == Eof && position < |input| {
        c := Chr(input[position]);
        assert input[position..][1..] == input[position + 1..];
        position := position + 1;
      }
      if c.Chr? && c.c < ' ' && c.c != '\n' {
        c := if c.c == '\r' then Chr('\n') else Chr(' ');
      }
      rest := if rest == "" then "" else rest[1..];
    }

    method Peek() returns (c: Symbol)
      requires Valid()
      modifies this`position, this`theLookahead, this`rest
      ensures Valid()
      ensures rest == old(rest)
      ensures c == if rest == "" then Eof else Chr(rest[0])
    {
      ghost var t := rest;
      theLookahead := Get();
      c := theLookahead;
      rest := t;
    }

    /** Skips to the end of the line; the next character is the second slash. */
    method SkipLine() returns (c: Symbol)
      requires Valid() && rest != "" && rest[0] == '/'
      modifies this`position, this`theLookahead, this`rest
      ensures Valid()
      ensures var r := AfterLine(old(rest)[1..]);
              if r == "" then c == Eof && rest == "" else c == Chr(r[0]) && rest == r[1..]
    {
      c := Get();
      ghost var t := rest;
      while true
        invariant Valid()
        invariant AfterLine(t) == AfterLine(rest)
        decreases |rest|
      {
        ghost var u := rest;
        c := Get();
        if c == Eof || c.c <= '\n' {
          return;
        }
        AfterLineStep(u);
      }
    }

    /** Skips past the end of a block comment; the next character is the star that opens it. */
    method SkipBlock() returns (ok: bool)
      requires Valid() && rest != "" && rest[0] == '*'
      modifies this`position, this`theLookahead, this`rest
      ensures Valid()
      ensures match AfterBlock(old(rest)[1..])
              case None => !ok
              case Some(r) => ok && rest == r
    {
      var c := Get();
      ghost var t := rest;
      while true
        invariant Valid()
        invariant AfterBlock(t) == AfterBlock(rest)
        decreases |rest|
      {
        ghost var u := rest;
        c := Get();
        if c == Chr('*') {
          var p := Peek();
          if p == Chr('/') {
            AfterBlockEnd(u);
            c := Get();
            return true;
          }
        } else if c == Eof {
          return false;
        }
        AfterBlockStep(u);
      }
    }

    method Next() returns (ok: bool, c: Symbol)
      requires Valid()
      modifies this`position, this`theLookahead, this`rest
      ensures Valid()
      ensures match Fetch(old(rest))
              case None => !ok
              case Some((b, r)) => ok && c == b && rest == r
    {
      ghost var t := rest;
      ok := true;
      c := Get();
      if c == Chr('/') {
        var p := Peek();
        if p == Chr('/') {
          FetchLine(t);
          c := SkipLine();
        } else if p == Chr('*') {
          FetchBlock(t);
          ok := SkipBlock();
          c := Chr(' ');
        }
      }
    }

    /** Reads A inside a literal that `q` closes; of an escape, the backslash is written. */
    method ReadInside(q: char) returns (closed: bool)
      requires Valid() && q != '\\'
      modifies this`position, this`theLookahead, this`rest, this`theA, this`output
      ensures Valid()
      ensures closed ==> theA == Chr(q) && output == old(output) && Copied(output, old(rest), q) == Some((output, rest))
      ensures !closed && theA.Chr? ==>
                |rest| < |old(rest)| && Copied(old(output), old(rest), q) == Copied(output + [theA.c], rest, q)
      ensures !closed && theA.Eof? ==> Copied(old(output), old(rest), q) == None
    {
      ghost var u, soFar := rest, output;
      theA := Get();
      if theA == Chr(q) {
        CopiedEnd(soFar, u);
        return true;
      }
      if theA == Chr('\\') {
        output := output + [theA.c];
        theA := Get();
        if theA != Eof {
          CopiedEscape(soFar, u, q);
        }
      } else if theA != Eof {
        CopiedStep(soFar, u, q);
      }
      return false;
    }

    /** Writes A and what follows, escapes included, up to the next `q`, which A then holds. */
    method CopyQuoted(q: char) returns (ok: bool)
      requires Valid() && theA == Chr(q) && q != '\\'
      modifies this`position, this`theLookahead, this`rest, this`theA, this`output
      ensures Valid()
      ensures match Copied(old(output) + [q], old(rest), q)
              case None => !ok
              case Some((written, r)) => ok && theA == Chr(q) && output == written && rest == r
    {
      ghost var t, before := rest, output;
      while true
        invariant Valid() && theA.Chr?
        invariant Copied(before + [q], t, q) == Copied(output + [theA.c], rest, q)
        decreases |rest|
      {
        output := output + [theA.c];
        var closed := ReadInside(q);
        if closed {
          return true;
        }
        if theA == Eof {
          return false;
        }
      }
    }

    /** Writes the body of a regular expression, whose opening slash is written, up to its
        closing slash, which A then holds. */
    method CopyRegex() returns (ok: bool)
      requires Valid()
      modifies this`position, this`theLookahead, this`rest, this`theA, this`output
      ensures Valid()
      ensures match Copied(old(output), old(rest), '/')
              case None => !ok
              case Some((written, r)) => ok && theA == Chr('/') && output == written && rest == r
    {
      ghost var t, before := rest, output;
      while true
        invariant Valid()
        invariant Copied(before, t, '/') == Copied(output, rest, '/')
        decreases |rest|
      {
        var closed := ReadInside('/');
        if closed {
          return true;
        }
        if theA == Eof {
          return false;
        }
        output := output + [theA.c];
      }
    }

    /** The part of `action` that moves B to A. */
    method ShiftB() returns (ok: bool)
      requires Valid()
      modifies this`position, this`theLookahead, this`rest, this`theA, this`output
      ensures Valid()
      ensures match Shift(theB, old(rest))
              case None => !ok
              case Some(e) => ok && output == old(output) + e.written && theA == e.a && theB == e.b && rest == e.rest
    {
      ok := true;
      ghost var t, before := rest, output;
      theA := theB;
      if theA == Chr('\'') || theA == Chr('"') {
        ok := CopyQuoted(theA.c);
        ShiftWritten(before, t, theB.c);
      }
    }

    /** The part of `action` that fetches the next B. */
    method RefillB() returns (ok: bool)
      requires Valid()
      modifies this`position, this`theLookahead, this`rest, this`theA, this`theB, this`output
      ensures Valid()
      ensures match Refill(old(theA), old(rest))
              case None => !ok
              case Some(e) => ok && output == old(output) + e.written && theA == e.a && theB == e.b && rest == e.rest
    {
      RefillWritten(output, theA, rest);
      ok, theB := Next();
      if ok && theB == Chr('/') && theA.Chr? && OpensRegex(theA.c) {
        output := output + [theA.c];
        output := output + [theB.c];
        ok := CopyRegex();
        if ok {
          ok, theB := Next();
        }
      }
    }

    method Action(d: int) returns (ok: bool)
      requires Valid() && 1 <= d <= 3 && (d == 1 ==> theA.Chr?)
      modifies this
      ensures Valid()
      ensures match Act(d, old(theA), old(theB), old(rest))
              case None => !ok
              case Some(e) =>
                ok && output == old(output) + e.written && theA == e.a && theB == e.b && rest == e.rest
    {
      ActWritten(output, d, theA, theB, rest);
      if d == 1 {
        output := output + [theA.c];
      }
      if d <= 2 {
        ok := ShiftB();
        if !ok {
          return;
        }
      }
      ok := RefillB();
    }

    /** Writes the minified input, or stops at an unclosed comment, string or regular expression. */
    method Run() returns (ok: bool)
      requires Valid() && rest == TranslateAll(input) && output == ""
      modifies this
      ensures ok <==> Minify(input).Some?
      ensures ok ==> output == Minify(input).value
    {
      theA := Chr('\n');
      ghost var ctx := RunStart(input, theB);
      ok := Action(3);
      if !ok {
        return;
      }
      while theA != Eof
        invariant Valid()
        invariant OnCourse(input, output, theA, theB, rest, ctx)
        decreases Size(theA, theB, rest)
      {
        ctx := RunTurn(input, output, theA, theB, rest, ctx);
        ok := Action(ActionFor(theA.c, theB));
        if !ok {
          return;
        }
      }
      RunEnd(input, output, theB, rest, ctx);
    }
  }
}
