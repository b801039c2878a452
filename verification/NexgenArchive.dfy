/**
 The archive reader of the NexGen importer (importers/nexgen_filter.cpp): members, each a
 header of 104 bytes and a payload that is copied out block by block.
 */
module NexgenArchive {
  import opened Arithmetic

  newtype Byte = b: int | 0 <= b < 256

  type Bytes = seq<Byte>

  const HEADER := 104
  const COUNTER := 0x1_0000_0000

  // ---------------------------------------------------------------- headers

  /** The letters FR: in ASCII. */
  const MAGIC: Bytes := [70, 82, 58]

  /** A length as four bytes, the least significant first. */
  function LittleEndian(n: nat): (r: Bytes)
    requires n < COUNTER
    ensures |r| == 4
  {
    [(n % 256) as Byte, (n / 256 % 256) as Byte, (n / 65536 % 256) as Byte, (n / 16777216) as Byte]
  }

  function Length(header: Bytes): (n: nat)
    requires |header| == HEADER
    ensures n < COUNTER
  {
    header[103] as int * 16777216 + header[102] as int * 65536 + header[101] as int * 256 + header[100] as int
  }

  predicate IsHeader(bytes: Bytes) { |bytes| >= HEADER && bytes[..3] == MAGIC }

  /** A file in an archive: the 97 bytes of its name field, and its content. */
  datatype Member = Member(name: Bytes, payload: Bytes)

  predicate WellFormed(m: Member) { |m.name| == 97 && |m.payload| < COUNTER }

  function Header(m: Member): (h: Bytes)
    requires WellFormed(m)
    ensures |h| == HEADER
  {
    MAGIC + m.name + LittleEndian(|m.payload|)
  }

  lemma DigitsJoin(n: nat)
    requires n < COUNTER
    ensures n / 16777216 * 16777216 + n / 65536 % 256 * 65536 + n / 256 % 256 * 256 + n % 256 == n
  {
    var a := n / 256;
    assert n == a * 256 + n % 256;
    assert a == n / 256 && a / 256 == n / 65536 by { assert n / 65536 == n / 256 / 256; }
    var b := a / 256;
    assert a == b * 256 + a % 256;
    var c := b / 256;
    assert b == c * 256 + b % 256;
    assert c == n / 16777216;
  }

  lemma HeaderSays(m: Member)
    requires WellFormed(m)
    ensures IsHeader(Header(m)) && Length(Header(m)) == |m.payload| && Header(m)[3..100] == m.name
  {
    var n := |m.payload|;
    var h := Header(m);
    assert h[..3] == MAGIC;
    assert h[3..100] == m.name;
    assert h[100..] == LittleEndian(n);
    assert h[100] == h[100..][0] && h[101] == h[100..][1] && h[102] == h[100..][2] && h[103] == h[100..][3];
    DigitsJoin(n);
  }

  /** The bytes of a header: the letters F, R and a colon, the name, and the length, the least
      significant byte first. */
  lemma {:induction false} HeaderBytes(m: Member)
    requires WellFormed(m)
    ensures var h := Header(m);
            && |h| == 104 && h[0] == 70 && h[1] == 82 && h[2] == 58
            && (forall i :: 0 <= i < 97 ==> h[3 + i] == m.name[i])
            && h[100] as int + 256 * h[101] as int + 65536 * h[102] as int + 16777216 * h[103] as int == |m.payload|
  {
    HeaderSays(m);
    var h := Header(m);
    assert h[..3] == MAGIC && h[0] == h[..3][0] && h[1] == h[..3][1] && h[2] == h[..3][2];
    forall i | 0 <= i < 97
      ensures h[3 + i] == m.name[i]
    {
      assert h[3..100][i] == h[3 + i];
    }
  }

  /** What is taken for a header: 104 bytes, of which only the letters are looked at. */
  lemma {:induction false} HeaderExactly(bytes: Bytes)
    ensures IsHeader(bytes) <==> |bytes| >= 104 && bytes[0] == 70 && bytes[1] == 82 && bytes[2] == 58
    ensures IsHeader(bytes) ==>
            Length(bytes[..104]) ==
            bytes[100] as int + 256 * bytes[101] as int + 65536 * bytes[102] as int + 16777216 * bytes[103] as int
  {
    if |bytes| >= 104 {
      assert bytes[..3] == [bytes[0], bytes[1], bytes[2]];
    }
  }

  // ---------------------------------------------------------------- how much is copied

  /** The bytes asked for while the counter does not wrap around: a block for every step from `i`
      below the length, then the remainder. */
  function Copied(length: nat, block: nat): nat
    requires block > 0
  {
    InBlocks(block, length, block) + length % block
  }

  function InBlocks(i: nat, length: nat, block: nat): nat
    requires block > 0
    decreases length - i
  {
    if i < length then block + InBlocks(i + block, length, block) else 0
  }

  /** Is the last block of this payload missed? */
  predicate Short(length: nat, block: nat)
    requires block > 0
  {
    length > 0 && length % block == 0
  }

  /** The blocks from `i` on cover the rest, up to the end of its last block. */
  lemma {:induction false} BlocksCover(i: nat, length: nat, block: nat)
    requires block > 0 && i <= length
    ensures var rest, m := length - i, (length - i) % block;
            InBlocks(i, length, block) == if m == 0 then rest else rest - m + block
    decreases length - i
  {
    var rest := length - i;
    if rest >= block {
      BlocksCover(i + block, length, block);
      ModShift(rest - block, 1, block);
    } else {
      QuotientIs(rest, block, 0, rest);
      if rest > 0 {
        assert InBlocks(i + block, length, block) == 0;
      }
    }
  }

  /** A payload is copied in full exactly when its length is no positive multiple of the block
      size; otherwise exactly one block is missing. */
  lemma {:induction false} CopiedExactly(length: nat, block: nat)
    requires block > 0
    ensures Copied(length, block) == if Short(length, block) then length - block else length
    ensures Copied(length, block) == length <==> !Short(length, block)
  {
    if length >= block {
      BlocksCover(block, length, block);
      ModShift(length - block, 1, block);
    } else {
      QuotientIs(length, block, 0, length);
    }
  }

  // ---------------------------------------------------------------- the loop's counter

  /** The loop's 32-bit counter after `n` blocks. */
  function Counter(block: nat, n: nat): nat {
    if n == 0 then block % COUNTER else (Counter(block, n - 1) + block) % COUNTER
  }

  /** Does the counter ever reach the length? */
  ghost predicate LoopEnds(length: nat, block: nat) { exists n: nat :: Counter(block, n) >= length }

  lemma {:induction false} CounterIs(block: nat, n: nat)
    ensures Counter(block, n) == (n + 1) * block % COUNTER
  {
    if n > 0 {
      CounterIs(block, n - 1);
      var x := n * block;
      assert (n + 1) * block == x + block;
      ModShift(x % COUNTER + block, x / COUNTER, COUNTER);
    }
  }

  /** The counter keeps to the multiples of the greatest common divisor. */
  lemma {:induction false} CounterBound(block: nat, n: nat)
    requires block > 0
    ensures Counter(block, n) <= COUNTER - Gcd(block, COUNTER)
  {
    CounterIs(block, n);
    GcdAtMost(block, COUNTER);
    RemainderKept(0, block, COUNTER, n + 1);
    MultipleBelow(Counter(block, n), COUNTER, Gcd(block, COUNTER));
  }

  /** It comes to the highest of them. */
  lemma {:induction false} CounterReaches(block: nat) returns (n: nat)
    requires block > 0
    ensures Counter(block, n) == COUNTER - Gcd(block, COUNTER)
  {
    var g := Gcd(block, COUNTER);
    GcdAtMost(block, COUNTER);
    ModShift(COUNTER, -1, g);
    var j := RemainderReached(0, block, COUNTER, COUNTER - g);
    n := j - 1;
    CounterIs(block, n);
  }

  /** The copy loop ends exactly when the length is at most 2^32 less the greatest common divisor
      with the block size; beyond, the counter wraps around for ever. */
  lemma {:induction false} LoopEndsExactly(length: nat, block: nat)
    requires length < COUNTER && block > 0
    ensures LoopEnds(length, block) <==> length <= COUNTER - Gcd(block, COUNTER)
  {
    if LoopEnds(length, block) {
      var n: nat :| Counter(block, n) >= length;
      CounterBound(block, n);
    }
    var n := CounterReaches(block);
  }

  /** The steps after which the counter first reaches the length. */
  ghost function Steps(length: nat, block: nat): (n: nat)
    requires LoopEnds(length, block)
    ensures Counter(block, n) >= length && forall j: nat :: j < n ==> Counter(block, j) < length
  {
    var m: nat :| Counter(block, m) >= length;
    FirstAt(length, block, 0, m)
  }

  lemma {:induction false} StepsAhead(length: nat, block: nat, k: nat)
    requires LoopEnds(length, block) && k <= Steps(length, block) && Counter(block, k) < length
    ensures k < Steps(length, block) && Counter(block, k + 1) == (Counter(block, k) + block) % COUNTER
  {
  }

  lemma {:induction false} StepsDone(length: nat, block: nat, k: nat)
    requires LoopEnds(length, block) && k <= Steps(length, block) && Counter(block, k) >= length
    ensures k == Steps(length, block)
  {
  }

  ghost function FirstAt(length: nat, block: nat, n: nat, m: nat): (r: nat)
    requires n <= m && Counter(block, m) >= length
    ensures n <= r && Counter(block, r) >= length && forall j :: n <= j < r ==> Counter(block, j) < length
    decreases m - n
  {
    if Counter(block, n) >= length then n else FirstAt(length, block, n + 1, m)
  }

  /** The bytes that a copy loop which ends asks for. */
  ghost function Asked(length: nat, block: nat): nat
    requires LoopEnds(length, block) && block > 0
  {
    Product(Steps(length, block), block) + length % block
  }

  /** The greatest length for which the counter does not wrap around. */
  function Bound(block: nat): nat
    requires block > 0
  {
    Product((COUNTER - 1) / block, block)
  }

  lemma {:induction false} CounterPlain(block: nat, n: nat)
    requires Product(n + 1, block) < COUNTER
    ensures Counter(block, n) == Product(n + 1, block)
  {
    CounterIs(block, n);
  }

  /** In blocks, as many steps as it takes to reach the length. */
  lemma {:induction false} InBlocksIs(length: nat, block: nat, j: nat, n: nat)
    requires block > 0 && j <= n && Product(n, block) <= length <= Product(n + 1, block)
    requires n > 0 ==> Product(n, block) < length
    ensures InBlocks(Product(j + 1, block), length, block) == Product(n - j, block)
    decreases n - j
  {
    if j == n {
      assert Product(0, block) == 0;
    } else {
      ProductGrows(j + 1, n, block);
      ProductNext(j + 2, block);
      ProductNext(n - j, block);
      InBlocksIs(length, block, j + 1, n);
    }
  }

  /** Up to the bound the loop ends, having asked for what it would ask for without its counter. */
  lemma {:induction false} AskedWithin(length: nat, block: nat)
    requires 0 < block < COUNTER && length <= Bound(block)
    ensures LoopEnds(length, block) && Asked(length, block) == Copied(length, block)
  {
    var n: nat := if length == 0 then 0 else (length - 1) / block;
    StepsReach(length, block, n);
    var last := (COUNTER - 1) / block;
    QuotientBounds(COUNTER - 1, block);
    ProductNext(1, block);
    if n > 0 && n >= last {
      ProductGrows(last, n, block);
      assert false;
    }
    ProductGrows(1, last, block) by {
      QuotientAtLeast(COUNTER - 1, block, 1);
    }
    ProductGrows(n + 1, last, block);
    CounterPlain(block, n);
    forall j: nat | j < n
      ensures Counter(block, j) < length
    {
      ProductGrows(j + 1, n, block);
      CounterPlain(block, j);
    }
    assert Steps(length, block) == n;
    InBlocksIs(length, block, 0, n);
  }

  lemma {:induction false} StepsReach(length: nat, block: nat, n: nat)
    requires block > 0 && n == if length == 0 then 0 else (length - 1) / block
    ensures Product(n, block) <= length <= Product(n + 1, block)
    ensures n > 0 ==> Product(n, block) < length
  {
    ProductNext(n + 1, block);
    if length > 0 {
      QuotientBounds(length - 1, block);
    }
  }

  /** Beyond it a loop that ends all the same has asked for more than the payload. */
  lemma {:induction false} AskedBeyond(length: nat, block: nat)
    requires 0 < block < COUNTER && Bound(block) < length < COUNTER && LoopEnds(length, block)
    ensures Asked(length, block) > length
  {
    var n := Steps(length, block);
    ProductNext(n + 1, block);
    if Product(n + 1, block) < COUNTER {
      CounterPlain(block, n);
      WithinBound(block, n + 1);
      assert false;
    }
    CounterIs(block, n);
    RemainderBelow(Product(n + 1, block));
  }

  lemma {:induction false} WithinBound(block: nat, n: nat)
    requires block > 0 && Product(n, block) < COUNTER
    ensures Product(n, block) <= Bound(block)
  {
    QuotientAtLeast(COUNTER - 1, block, n);
    ProductGrows(n, (COUNTER - 1) / block, block);
  }

  lemma {:induction false} RemainderBelow(x: nat)
    requires x >= COUNTER
    ensures x % COUNTER <= x - COUNTER
  {
  }

  // ---------------------------------------------------------------- unpacking

  /** A file written: its name field and its content. */
  datatype Item = Item(header: Bytes, data: Bytes)

  /** The files that a run gives, what is left unread, and whether the run ends. */
  datatype Unpacked = Unpacked(items: seq<Item>, left: Bytes, ended: bool)

  ghost function Unpack(file: Bytes, block: nat): Unpacked
    requires 0 < block < COUNTER
    decreases |file|
  {
    if !IsHeader(file) then Unpacked([], file, true)
    else
      var header, rest := file[..HEADER], file[HEADER..];
      if !LoopEnds(Length(header), block) then Unpacked([Item(header, rest)], [], false)
      else
        var n := Min(Asked(Length(header), block), |rest|);
        var more := Unpack(rest[n..], block);
        Unpacked([Item(header, rest[..n])] + more.items, more.left, more.ended)
  }

  function Joined(items: seq<Item>): Bytes {
    if items == [] then [] else items[0].header + items[0].data + Joined(items[1..])
  }

  lemma Reassembled(file: Bytes, n: nat, more: Bytes, left: Bytes)
    requires |file| >= HEADER && n <= |file[HEADER..]| && file[HEADER..][n..] == more + left
    ensures file == file[..HEADER] + file[HEADER..][..n] + more + left
  {
    var rest := file[HEADER..];
    assert file == file[..HEADER] + rest && rest == rest[..n] + rest[n..];
  }

  lemma {:induction false} JoinedNext(item: Item, items: seq<Item>)
    ensures Joined([item] + items) == item.header + item.data + Joined(items)
  {
    assert ([item] + items)[1..] == items;
  }

  /** Whatever the file, every byte of it is in one header or one file written, or left. */
  lemma {:induction false} EveryByteOnce(file: Bytes, block: nat)
    requires 0 < block < COUNTER
    ensures var u := Unpack(file, block); file == Joined(u.items) + u.left && !IsHeader(u.left)
    decreases |file|
  {
    if IsHeader(file) {
      var header, rest := file[..HEADER], file[HEADER..];
      if LoopEnds(Length(header), block) {
        var n := Min(Asked(Length(header), block), |rest|);
        EveryByteOnce(rest[n..], block);
        var more := Unpack(rest[n..], block);
        JoinedNext(Item(header, rest[..n]), more.items);
        Reassembled(file, n, Joined(more.items), more.left);
      } else {
        JoinedNext(Item(header, rest), []);
        assert [Item(header, rest)] + [] == [Item(header, rest)];
      }
    }
  }

  function Archive(members: seq<Member>): Bytes
    requires forall m <- members :: WellFormed(m)
  {
    if members == [] then [] else Header(members[0]) + members[0].payload + Archive(members[1..])
  }

  function Items(members: seq<Member>): (r: seq<Item>)
    requires forall m <- members :: WellFormed(m)
    ensures |r| == |members|
  {
    if members == [] then [] else [Item(Header(members[0]), members[0].payload)] + Items(members[1..])
  }

  lemma MemberParts(m: Member, rest: Bytes)
    requires WellFormed(m)
    ensures var file := Header(m) + m.payload + rest;
            && IsHeader(file) && file[..HEADER] == Header(m) && file[HEADER..] == m.payload + rest
            && Length(file[..HEADER]) == |m.payload|
  {
    var file := Header(m) + m.payload + rest;
    HeaderSays(m);
    assert file == Header(m) + (m.payload + rest);
    assert file[..3] == Header(m)[..3];
  }

  lemma {:induction false} UnpackOne(m: Member, rest: Bytes, block: nat)
    requires WellFormed(m) && 0 < block < COUNTER && |m.payload| <= Bound(block)
    ensures var n := Copied(|m.payload|, block);
            n <= |m.payload| &&
            var more := Unpack((m.payload + rest)[n..], block);
            Unpack(Header(m) + m.payload + rest, block)
            == Unpacked([Item(Header(m), m.payload[..n])] + more.items, more.left, more.ended)
  {
    MemberParts(m, rest);
    CopiedExactly(|m.payload|, block);
    AskedWithin(|m.payload|, block);
    var n := Copied(|m.payload|, block);
    assert (m.payload + rest)[..n] == m.payload[..n];
  }

  lemma {:induction false} UnpackLong(m: Member, rest: Bytes, block: nat)
    requires WellFormed(m) && 0 < block < COUNTER && |m.payload| > Bound(block)
    ensures var u := Unpack(Header(m) + m.payload + rest, block);
            if !LoopEnds(|m.payload|, block) then !u.ended
            else if rest == [] then u == Unpacked([Item(Header(m), m.payload)], [], true)
            else u.items != [] && |u.items[0].data| > |m.payload|
  {
    MemberParts(m, rest);
    if LoopEnds(|m.payload|, block) {
      AskedBeyond(|m.payload|, block);
      if rest == [] {
        assert m.payload + [] == m.payload;
        assert m.payload[..|m.payload|] == m.payload;
        assert [Item(Header(m), m.payload)] + [] == [Item(Header(m), m.payload)];
      }
    }
  }

  /** A payload of this length is copied as it is: no block of it is missed, and the counter does
      not wrap around. */
  predicate WholeLength(length: nat, block: nat)
    requires block > 0
  {
    !Short(length, block) && length <= Bound(block)
  }

  /** Every payload is copied as it is; only the last, with nothing behind it, may be so long that
      the counter wraps around, if its loop ends: more is asked for than there is. */
  predicate Whole(members: seq<Member>, tail: Bytes, block: nat)
    requires block > 0
  {
    || members == []
    || (WholeLength(|members[0].payload|, block) && Whole(members[1..], tail, block))
    || (|members| == 1 && tail == [] && Bound(block) < |members[0].payload| <= COUNTER - Gcd(block, COUNTER))
  }

  /** The run over an archive ends, gives back exactly its members and stops where it stops, if
      and only if every payload is whole. */
  lemma {:induction false} RoundTripExactly(members: seq<Member>, tail: Bytes, block: nat)
    requires (forall m <- members :: WellFormed(m)) && !IsHeader(tail) && 0 < block < COUNTER
    ensures Unpack(Archive(members) + tail, block) == Unpacked(Items(members), tail, true)
       <==> Whole(members, tail, block)
  {
    if members == [] {
      assert Archive(members) + tail == tail;
    } else {
      var m, others := members[0], members[1..];
      var rest := Archive(others) + tail;
      assert Archive(members) + tail == Header(m) + m.payload + rest;
      RoundTripExactly(others, tail, block);
      if |m.payload| <= Bound(block) {
        RoundTripWithin(m, others, tail, block);
      } else {
        RoundTripBeyond(m, others, tail, block);
      }
    }
  }

  lemma {:induction false} RoundTripWithin(m: Member, others: seq<Member>, tail: Bytes, block: nat)
    requires WellFormed(m) && (forall o <- others :: WellFormed(o)) && 0 < block < COUNTER
    requires |m.payload| <= Bound(block)
    ensures var rest := Archive(others) + tail;
            Unpack(Header(m) + m.payload + rest, block)
            == Unpacked([Item(Header(m), m.payload)] + Items(others), tail, true)
            <==> !Short(|m.payload|, block) && Unpack(rest, block) == Unpacked(Items(others), tail, true)
  {
    var rest := Archive(others) + tail;
    UnpackOne(m, rest, block);
    CopiedExactly(|m.payload|, block);
    var u := Unpack(Header(m) + m.payload + rest, block);
    if !Short(|m.payload|, block) {
      assert m.payload[..|m.payload|] == m.payload && (m.payload + rest)[|m.payload|..] == rest;
      assert u.items[1..] == Unpack(rest, block).items;
      assert ([Item(Header(m), m.payload)] + Items(others))[1..] == Items(others);
    } else {
      assert u.items[0].data != m.payload;
    }
  }

  lemma {:induction false} RoundTripBeyond(m: Member, others: seq<Member>, tail: Bytes, block: nat)
    requires WellFormed(m) && (forall o <- others :: WellFormed(o)) && 0 < block < COUNTER
    requires |m.payload| > Bound(block)
    ensures var rest := Archive(others) + tail;
            Unpack(Header(m) + m.payload + rest, block)
            == Unpacked([Item(Header(m), m.payload)] + Items(others), tail, true)
            <==> others == [] && tail == [] && |m.payload| <= COUNTER - Gcd(block, COUNTER)
  {
    var rest := Archive(others) + tail;
    UnpackLong(m, rest, block);
    LoopEndsExactly(|m.payload|, block);
    assert rest == [] <==> others == [] && tail == [];
  }

  /** With a block size that divides 2^32, as powers of two do, the payloads must be no positive
      multiple of it, and not within a block of 2^32. */
  lemma {:induction false} RoundTripOfDivisor(members: seq<Member>, tail: Bytes, block: nat)
    requires (forall m <- members :: WellFormed(m)) && !IsHeader(tail) && 0 < block < COUNTER && COUNTER % block == 0
    ensures Unpack(Archive(members) + tail, block) == Unpacked(Items(members), tail, true)
       <==> forall m <- members :: !Short(|m.payload|, block) && |m.payload| <= COUNTER - block
  {
    RoundTripExactly(members, tail, block);
    WholeOfDivisor(members, tail, block);
  }

  lemma {:induction false} BoundOfDivisor(block: nat)
    requires 0 < block < COUNTER && COUNTER % block == 0
    ensures Bound(block) == COUNTER - block == COUNTER - Gcd(block, COUNTER)
  {
    GcdOfDivisor(block, COUNTER);
    var k := COUNTER / block;
    QuotientBounds(COUNTER, block);
    assert COUNTER == k * block + COUNTER % block;
    assert COUNTER == Product(k, block);
    ProductNext(k, block);
    QuotientIs(COUNTER - 1, block, k - 1, block - 1);
  }

  lemma {:induction false} WholeOfDivisor(members: seq<Member>, tail: Bytes, block: nat)
    requires 0 < block < COUNTER && COUNTER % block == 0
    ensures Whole(members, tail, block)
       <==> forall m <- members :: !Short(|m.payload|, block) && |m.payload| <= COUNTER - block
  {
    BoundOfDivisor(block);
    if members != [] {
      WholeOfDivisor(members[1..], tail, block);
      assert members == [members[0]] + members[1..];
    }
  }

  /** A payload of 2^32 - 1 bytes is never done with, in blocks of 4096. */
  lemma {:induction false} LongPayloadHangs(m: Member, tail: Bytes, block: nat)
    requires |m.name| == 97 && |m.payload| == COUNTER - 1 && block == 4096
    ensures !Short(|m.payload|, block) && !Unpack(Header(m) + m.payload + tail, block).ended
  {
    BoundOfDivisor(block);
    LoopEndsExactly(|m.payload|, block);
    UnpackLong(m, tail, block);
  }

  lemma WholeBlocks(body: nat, block: nat)
    requires block > 0 && body % block == 0
    ensures Short(body + block, block)
  {
    var q := body / block;
    assert body == q * block + body % block;
    assert body + block == (q + 1) * block by {
      assert (q + 1) * block == q * block + block;
    }
    QuotientIs(body + block, block, q + 1, 0);
    assert body + block == (body + block) / block * block + (body + block) % block;
  }

  lemma {:induction false} ShortCopied(body: nat, block: nat)
    requires block > 0 && body % block == 0
    ensures Copied(body + block, block) == body
  {
    CopiedExactly(body + block, block);
    WholeBlocks(body, block);
  }

  lemma {:induction false} BodyAndLast(body: Bytes, last: Bytes, rest: Bytes)
    ensures (body + last)[..|body|] == body && (body + last + rest)[|body|..] == last + rest
  {
  }

  /** The last block of a short member is read as if a member began there: those after it are
      lost unless the block happens to look like a header. */
  lemma {:induction false} MissedBlockIsNext(m: Member, body: Bytes, last: Bytes, rest: Bytes, block: nat)
    requires WellFormed(m) && 0 < block < COUNTER && |m.payload| <= Bound(block)
    requires m.payload == body + last && |body| % block == 0 && |last| == block
    ensures var more := Unpack(last + rest, block);
            && Unpack(Header(m) + m.payload + rest, block)
               == Unpacked([Item(Header(m), body)] + more.items, more.left, more.ended)
            && (more == Unpacked([], last + rest, true) <==> !IsHeader(last + rest))
  {
    UnpackOne(m, rest, block);
    ShortCopied(|body|, block);
    BodyAndLast(body, last, rest);
    UnpackStops(last + rest, block);
  }

  lemma UnpackStops(file: Bytes, block: nat)
    requires 0 < block < COUNTER
    ensures Unpack(file, block) == Unpacked([], file, true) <==> !IsHeader(file)
  {
  }

  // ---------------------------------------------------------------- the reader

  class Reader {
    const file: Bytes
    var position: nat

    ghost predicate Valid()
      reads this
    {
      position <= |file|
    }

    ghost function Ahead(): Bytes
      reads this
      requires Valid()
    {
      file[position..]
    }

    constructor (file: Bytes)
      ensures Valid() && Ahead() == file
    {
      this.file, position := file, 0;
    }

    /** As many bytes as asked for, or as there are. */
    method Read(count: nat) returns (data: Bytes)
      requires Valid()
      modifies this
      ensures Valid() && var n := Min(count, |old(Ahead())|);
                         data == old(Ahead())[..n] && Ahead() == old(Ahead())[n..]
    {
      var n := if count < |file| - position then count else |file| - position;
      data := file[position..position + n];
      position := position + n;
    }

    /** The first `done` bytes from `start` on, or all there are, have been copied. */
    ghost predicate Copying(start: Bytes, done: nat, out: Bytes)
      reads this
    {
      Valid() && out == start[..Min(done, |start|)] && Ahead() == start[Min(done, |start|)..]
    }

    method CopyMore(ghost start: Bytes, ghost done: nat, out: Bytes, count: nat) returns (more: Bytes)
      requires Copying(start, done, out)
      modifies this
      ensures Copying(start, done + count, more)
    {
      var data := Read(count);
      Onward(start, done, count);
      more := out + data;
    }

    /** Copies a payload, block by block and then the remainder. */
    method CopyPayload(length: nat, block: nat) returns (out: Bytes)
      requires Valid() && 0 < block < COUNTER && LoopEnds(length, block)
      modifies this
      ensures Copying(old(Ahead()), Asked(length, block), out)
    {
      ghost var start := Ahead();
      ghost var k: nat := 0;
      out := [];
      var i := block;
      assert Product(0, block) == 0;
      while i < length
        invariant i == Counter(block, k) && k <= Steps(length, block)
        invariant Copying(start, Product(k, block), out)
        decreases Steps(length, block) - k
      {
        out := CopyMore(start, Product(k, block), out, block);
        ProductNext(k + 1, block);
        StepsAhead(length, block, k);
        i := (i + block) % COUNTER;
        k := k + 1;
      }
      StepsDone(length, block, k);
      out := CopyMore(start, Product(k, block), out, length % block);
    }

    /** Copies out the member whose header was read. */
    method CopyMember(header: Bytes, block: nat) returns (item: Item)
      requires Valid() && 0 < block < COUNTER && |header| == HEADER && LoopEnds(Length(header), block)
      modifies this
      ensures Valid() && var n := Min(Asked(Length(header), block), |old(Ahead())|);
                         item == Item(header, old(Ahead())[..n]) && Ahead() == old(Ahead())[n..]
    {
      var length := header[103] as int * 16777216 + header[102] as int * 65536 + header[101] as int * 256
                    + header[100] as int;
      var data := CopyPayload(length, block);
      item := Item(header, data);
    }

    /** Reads the members, one after the other. */
    method ProcessArchive(block: nat) returns (items: seq<Item>)
      requires Valid() && 0 < block < COUNTER && Unpack(Ahead(), block).ended
      modifies this
      ensures items == Unpack(old(Ahead()), block).items
    {
      ghost var start := Ahead();
      items := [];
      ghost var ahead := start;
      var header := Read(HEADER);
      while |header| == HEADER && header[..3] == MAGIC
        invariant Valid() && Unpack(ahead, block).ended
        invariant header == ahead[..Min(HEADER, |ahead|)] && Ahead() == ahead[Min(HEADER, |ahead|)..]
        invariant items + Unpack(ahead, block).items == Unpack(start, block).items
        decreases |ahead|
      {
        HeaderSeen(ahead, header);
        MemberFurther(items, ahead, block);
        var item := CopyMember(header, block);
        items := items + [item];
        ahead := Ahead();
        header := Read(HEADER);
      }
      HeaderSeen(ahead, header);
      assert items + [] == items;
    }
  }

  lemma Onward(start: Bytes, done: nat, count: nat)
    ensures var m := Min(done, |start|); var ahead := start[m..]; var n := Min(count, |ahead|);
            && start[..m] + ahead[..n] == start[..Min(done + count, |start|)]
            && ahead[n..] == start[Min(done + count, |start|)..]
  {
  }

  lemma HeaderSeen(ahead: Bytes, header: Bytes)
    requires header == ahead[..Min(HEADER, |ahead|)]
    ensures IsHeader(ahead) <==> |header| == HEADER && header[..3] == MAGIC
  {
    if |ahead| >= HEADER {
      assert header[..3] == ahead[..3];
    }
  }

  lemma {:induction false} MemberFurther(items: seq<Item>, file: Bytes, block: nat)
    requires 0 < block < COUNTER && IsHeader(file) && Unpack(file, block).ended
    ensures var header, rest := file[..HEADER], file[HEADER..];
            LoopEnds(Length(header), block) &&
            var n := Min(Asked(Length(header), block), |rest|);
            && Unpack(rest[n..], block).ended
            && items + Unpack(file, block).items == items + [Item(header, rest[..n])] + Unpack(rest[n..], block).items
  {
  }
}
