/** LMDB's text format for keys and data: the printers of mdb_dump and the in-place line reader
    of mdb_load with its growing buffer. */
module DumpLoad {
  import opened Words

  const SPACE: u8 := 0x20
  const NEWLINE: u8 := 0x0A
  const BACKSLASH: u8 := 0x5C

  /** isprint in the C locale. */
  predicate IsPrint(c: u8) {
    0x20 <= c <= 0x7E
  }

  predicate IsXDigit(c: u8) {
    0x30 <= c <= 0x39 || 0x41 <= c <= 0x46 || 0x61 <= c <= 0x66
  }

  /** hexc[n]: "0123456789abcdef". */
  function HexDigit(n: nat): (c: u8)
    requires n < 16
    ensures IsXDigit(c) && c != BACKSLASH
  {
    if n < 10 then 0x30 + n else 0x61 + (n - 10)
  }

  // ---------------------------------------------------------------- printing

  function Hex(c: u8): seq<u8> {
    [HexDigit(c / 16), HexDigit(c % 16)]
  }

  function TextChar(c: u8): seq<u8> {
    if !IsPrint(c) then [BACKSLASH] + Hex(c) else if c == BACKSLASH then [BACKSLASH, c] else [c]
  }

  function TextOf(data: seq<u8>): seq<u8> {
    if data == [] then [] else TextChar(data[0]) + TextOf(data[1..])
  }

  lemma TextStep(data: seq<u8>, k: nat)
    requires k < |data|
    ensures TextOf(data[k..]) == TextChar(data[k]) + TextOf(data[k + 1..])
  {
    hide TextChar;
    assert data[k..][1..] == data[k + 1..];
  }

  lemma ConcatAssociative(a: seq<u8>, b: seq<u8>, c: seq<u8>)
    ensures a + (b + c) == (a + b) + c
  {
  }

  lemma TextEmpty(data: seq<u8>)
    requires data == []
    ensures TextOf(data) == []
  {
  }

  function BytesOf(data: seq<u8>): seq<u8> {
    if data == [] then [] else Hex(data[0]) + BytesOf(data[1..])
  }

  /** One line of the dump. */
  function LineOf(printable: bool, data: seq<u8>): (line: seq<u8>)
    ensures line != [] && line[0] == SPACE
  {
    [SPACE] + (if printable then TextOf(data) else BytesOf(data)) + [NEWLINE]
  }

  datatype Pair = Pair(key: seq<u8>, data: seq<u8>)

  /** "DATA=END" and a newline. */
  const END_LINE: seq<u8> := [0x44, 0x41, 0x54, 0x41, 0x3D, 0x45, 0x4E, 0x44, 0x0A]

  /** The body of a dump: two lines a record, and the closing line. */
  function DumpOf(printable: bool, pairs: seq<Pair>): seq<u8> {
    if pairs == [] then END_LINE
    else LineOf(printable, pairs[0].key) + (LineOf(printable, pairs[0].data) + DumpOf(printable, pairs[1..]))
  }

  lemma AddTwo(a: seq<u8>, b: seq<u8>, c: seq<u8>, d: seq<u8>)
    ensures a + (b + (c + d)) == a + b + c + d
  {
  }

  /** Standard output; putchar appends to it. */
  class Output {
    var written: seq<u8>

    constructor ()
      ensures written == []
    {
      written := [];
    }

    method PutChar(c: u8)
      modifies this
      ensures written == old(written) + [c]
    {
      written := written + [c];
    }

    method PutHex(c: u8)
      modifies this
      ensures written == old(written) + Hex(c)
    {
      PutChar(HexDigit(c / 16));
      PutChar(HexDigit(c % 16));
    }

    /** text(). */
    method Text(v: seq<u8>)
      modifies this
      ensures written == old(written) + LineOf(true, v)
    {
      PutChar(SPACE);
      var c := 0;
      ghost var start := written;
      assert v[0..] == v;
      while c < |v|
        invariant 0 <= c <= |v|
        invariant written + TextOf(v[c..]) == start + TextOf(v)
      {
        hide TextOf, TextChar;
        TextStep(v, c);
        ConcatAssociative(written, TextChar(v[c]), TextOf(v[c + 1..]));
        PutTextChar(v[c]);
        c := c + 1;
      }
      hide TextOf, TextChar;
      TextEmpty(v[c..]);
      assert written == start + TextOf(v);
      PutChar(NEWLINE);
      ConcatAssociative(old(written), [SPACE] + TextOf(v), [NEWLINE]);
      ConcatAssociative(old(written), [SPACE], TextOf(v));
    }

    /** The body of text()'s loop. */
    method PutTextChar(c: u8)
      modifies this
      ensures written == old(written) + TextChar(c)
    {
      if IsPrint(c) {
        if c == BACKSLASH {
          PutChar(BACKSLASH);
        }
        PutChar(c);
      } else {
        PutChar(BACKSLASH);
        PutHex(c);
      }
    }

    /** byte(). */
    method Byte(v: seq<u8>)
      modifies this
      ensures written == old(written) + LineOf(false, v)
    {
      PutChar(SPACE);
      var c := 0;
      ghost var start := written;
      while c < |v|
        invariant 0 <= c <= |v|
        invariant written + BytesOf(v[c..]) == start + BytesOf(v)
      {
        ghost var before := written;
        PutHex(v[c]);
        assert written == before + Hex(v[c]);
        c := c + 1;
      }
      assert written == start + BytesOf(v);
      PutChar(NEWLINE);
      assert old(written) + LineOf(false, v) == old(written) + [SPACE] + BytesOf(v) + [NEWLINE];
    }

    /** dumpit()'s loop over the cursor and the line after it. */
    method Dump(printable: bool, pairs: seq<Pair>)
      modifies this
      ensures written == old(written) + DumpOf(printable, pairs)
    {
      hide LineOf;
      ghost var start := written;
      var i := 0;
      assert pairs[0..] == pairs;
      while i < |pairs|
        invariant 0 <= i <= |pairs|
        invariant written + DumpOf(printable, pairs[i..]) == start + DumpOf(printable, pairs)
      {
        ghost var before := written;
        if printable {
          Text(pairs[i].key);
          Text(pairs[i].data);
        } else {
          Byte(pairs[i].key);
          Byte(pairs[i].data);
        }
        assert pairs[i..][1..] == pairs[i + 1..];
        AddTwo(before, LineOf(printable, pairs[i].key), LineOf(printable, pairs[i].data), DumpOf(printable, pairs[i + 1..]));
        i := i + 1;
      }
      assert DumpOf(printable, pairs[i..]) == END_LINE;
      i := 0;
      while i < |END_LINE|
        invariant 0 <= i <= |END_LINE|
        invariant written + END_LINE[i..] == start + DumpOf(printable, pairs)
      {
        ConcatAssociative(written, [END_LINE[i]], END_LINE[i + 1..]);
        assert END_LINE[i..] == [END_LINE[i]] + END_LINE[i + 1..];
        PutChar(END_LINE[i]);
        i := i + 1;
      }
    }
  }

  // ----------------------------------------------------------------- parsing

  datatype Option<T> = None | Some(value: T)

  /** `c & 0x4f`. */
  function And4F(c: u8): nat {
    c / 0x40 % 2 * 0x40 + c % 0x10
  }

  function HexValue(c: u8): int {
    var x := And4F(c);
    if x >= 0x40 then x - 55 else x
  }

  /** unhex(): two digits as one byte. */
  function Unhex(high: u8, low: u8): (c: u8)
    requires IsXDigit(high) && IsXDigit(low)
  {
    HexValueSmall(high);
    HexValueSmall(low);
    16 * HexValue(high) + HexValue(low)
  }

  lemma HexValueSmall(c: u8)
    requires IsXDigit(c)
    ensures 0 <= HexValue(c) < 16
  {
  }

  function Join(c: u8, rest: Option<seq<u8>>): Option<seq<u8>> {
    if rest.None? then None else Some([c] + rest.value)
  }

  /** What a line of the print format stands for, if it is well formed. */
  function Untext(line: seq<u8>): Option<seq<u8>> {
    if line == [] then Some([])
    else if line[0] != BACKSLASH then Join(line[0], Untext(line[1..]))
    else if |line| >= 2 && line[1] == BACKSLASH then Join(BACKSLASH, Untext(line[2..]))
    else if |line| < 3 || !IsXDigit(line[1]) || !IsXDigit(line[2]) then None
    else Join(Unhex(line[1], line[2]), Untext(line[3..]))
  }

  function Unbytes(line: seq<u8>): Option<seq<u8>> {
    if line == [] then Some([])
    else if |line| < 2 || !IsXDigit(line[0]) || !IsXDigit(line[1]) then None
    else Join(Unhex(line[0], line[1]), Unbytes(line[2..]))
  }

  function Unline(printable: bool, line: seq<u8>): Option<seq<u8>> {
    if printable then Untext(line) else Unbytes(line)
  }

  lemma UnhexHex(c: u8)
    ensures Unhex(HexDigit(c / 16), HexDigit(c % 16)) == c
  {
    HexValueDigit(c / 16);
    HexValueDigit(c % 16);
  }

  lemma HexValueDigit(n: nat)
    requires n < 16
    ensures HexValue(HexDigit(n)) == n
  {
  }

  /** Digits in both cases, by their characters. */
  lemma HexValueIs(c: u8)
    requires IsXDigit(c)
    ensures HexValue(c) == if '0' as nat <= c <= '9' as nat then c - '0' as nat
                           else if 'a' as nat <= c <= 'f' as nat then 10 + c - 'a' as nat else 10 + c - 'A' as nat
  {
  }

  /** A printable byte is printed as it is, a backslash twice, and others as a backslash and two digits. */
  lemma PrintedAs()
    ensures LineOf(true, [0x41, 0x5C, 0x0A]) == [0x20, 0x41, 0x5C, 0x5C, 0x5C, 0x30, 0x61, 0x0A]
    ensures LineOf(false, [0x41, 0xAF]) == [0x20, 0x34, 0x31, 0x61, 0x66, 0x0A]
  {
    assert [0x41, 0x5C, 0x0A][1..] == [0x5C, 0x0A] && [0x5C, 0x0A][1..] == [0x0A] && [0x0A][1..] == [];
    assert TextOf([0x0A]) == [0x5C, 0x30, 0x61] && TextOf([0x5C, 0x0A]) == [0x5C, 0x5C] + TextOf([0x0A]);
    assert [0x41, 0xAF][1..] == [0xAF] && [0xAF][1..] == [];
    assert BytesOf([0xAF]) == [0x61, 0x66];
  }

  /** Reading back what was printed: every byte string survives, in both formats. */
  lemma {:induction false} UnlineUndoes(printable: bool, data: seq<u8>)
    ensures Unline(printable, if printable then TextOf(data) else BytesOf(data)) == Some(data)
  {
    if data != [] {
      var c, rest := data[0], data[1..];
      UnlineUndoes(printable, rest);
      assert data == [c] + rest;
      UnhexHex(c);
      var tail := if printable then TextOf(rest) else BytesOf(rest);
      if !printable {
        assert BytesOf(data)[2..] == tail;
      } else if !IsPrint(c) {
        assert TextOf(data)[3..] == tail;
      } else if c == BACKSLASH {
        assert TextOf(data)[2..] == tail;
      } else {
        assert TextOf(data)[1..] == tail;
      }
    }
  }

  /** A printed line has no newline of its own and no NUL. */
  lemma {:induction false} NoNewline(printable: bool, data: seq<u8>)
    ensures var line := if printable then TextOf(data) else BytesOf(data); NEWLINE !in line && 0 !in line
  {
    if data != [] {
      NoNewline(printable, data[1..]);
    }
  }

  // ------------------------------------------------------ the line reader

  /** `Got` is readline's 0; the others are its EOF: the input is used up, the line was DATA=END, or
      the input is not in the format. */
  datatype ReadResult = Got(bytes: seq<u8>) | AtEnd | Finished | Broken

  function IndexOf(s: seq<u8>, c: u8): (k: nat)
    ensures k <= |s| && (forall i :: 0 <= i < k ==> s[i] != c) && (k < |s| ==> s[k] == c)
  {
    if s == [] || s[0] == c then 0 else 1 + IndexOf(s[1..], c)
  }

  /** The first line of `s` with its newline, or all of `s` if it has none. */
  function LineSpan(s: seq<u8>): (n: nat)
    ensures n <= |s| && (s != [] ==> 0 < n)
  {
    var k := IndexOf(s, NEWLINE);
    if k < |s| then k + 1 else |s|
  }

  /** The first line of `s` has no NUL. */
  predicate NulFree(s: seq<u8>) {
    0 !in s[..LineSpan(s)]
  }

  lemma NoNulInside(s: seq<u8>, x: nat, end: nat)
    requires NulFree(s) && x < end <= |s| && (s[end - 1] == NEWLINE ==> IndexOf(s, NEWLINE) == end - 1)
    requires s[end - 1] != NEWLINE ==> end <= IndexOf(s, NEWLINE)
    ensures s[x] != 0
  {
    hide IndexOf;
    assert end <= LineSpan(s);
    assert s[..LineSpan(s)][x] == s[x];
  }

  lemma NulFirst(s: seq<u8>)
    requires s != [] && s[0] == 0
    ensures !NulFree(s)
  {
    hide LineSpan;
    assert s[..LineSpan(s)][0] == 0;
  }

  lemma IndexOfFirst(s: seq<u8>, c: u8, k: nat)
    requires k <= |s| && (forall i :: 0 <= i < k ==> s[i] != c) && (k < |s| ==> s[k] == c)
    ensures IndexOf(s, c) == k
  {
  }

  const DATA_END: seq<u8> := [0x41, 0x54, 0x41, 0x3D, 0x45, 0x4E, 0x44]

  function LineResult(printable: bool, s: seq<u8>): ReadResult {
    var k := IndexOf(s, NEWLINE);
    if s == [] then AtEnd
    else if k == |s| then Broken
    else
      var data := Unline(printable, s[..k]);
      if data.None? then Broken else Got(data.value)
  }

  /** What reading one line from the input `s` gives. With a header every line starts with a space. */
  function ReadSpec(printable: bool, header: bool, s: seq<u8>): ReadResult {
    if !header then LineResult(printable, s)
    else if s == [] then AtEnd
    else if s[0] == SPACE then LineResult(printable, s[1..])
    else if s[0] == 0x44 && DATA_END <= s[1..] then Finished
    else Broken
  }

  /** The line that the source cannot read without looking before its buffer. */
  predicate StartsWithNul(header: bool, s: seq<u8>) {
    if header then |s| > 1 && s[0] == SPACE && s[1] == 0 else s != [] && s[0] == 0
  }

  function Body(header: bool, s: seq<u8>): seq<u8> {
    if header && s != [] then s[1..] else s
  }

  /** How much of the input a line takes, when one was read. */
  function LineLength(header: bool, s: seq<u8>): nat {
    if header && s != [] then 2 + IndexOf(s[1..], NEWLINE) else 1 + IndexOf(s, NEWLINE)
  }

  /** How loading one database ends: `Committed` when readline gives up on a key line, even a malformed
      one; `Aborted` when a key has no readable value. `pairs` are the records put. */
  datatype LoadResult = Committed(pairs: seq<Pair>) | Aborted(pairs: seq<Pair>) | Undefined

  function Prepend(pairs: seq<Pair>, result: LoadResult): LoadResult {
    match result
    case Committed(more) => Committed(pairs + more)
    case Aborted(more) => Aborted(pairs + more)
    case Undefined => Undefined
  }

  /** What loading one database from the input `s` puts. */
  function LoadOf(printable: bool, header: bool, s: seq<u8>): LoadResult
    decreases |s|
  {
    var key := ReadSpec(printable, header, s);
    if !key.Got? then Committed([])
    else
      GotFits(printable, header, s);
      var rest := s[LineLength(header, s)..];
      var data := ReadSpec(printable, header, rest);
      if !data.Got? then Aborted([])
      else
        GotFits(printable, header, rest);
        Prepend([Pair(key.bytes, data.bytes)], LoadOf(printable, header, rest[LineLength(header, rest)..]))
  }

  lemma GotFits(printable: bool, header: bool, s: seq<u8>)
    requires ReadSpec(printable, header, s).Got?
    ensures 0 < LineLength(header, s) <= |s|
  {
    hide Unline;
  }

  /** Reading one printed line gives back the bytes and stops at what follows it. */
  lemma LineUndoes(printable: bool, data: seq<u8>, rest: seq<u8>)
    ensures var s := LineOf(printable, data) + rest;
            && ReadSpec(printable, true, s) == Got(data)
            && LineLength(true, s) == |LineOf(printable, data)|
            && s[LineLength(true, s)..] == rest
  {
    hide TextOf, BytesOf, Unline, IndexOf;
    var line := if printable then TextOf(data) else BytesOf(data);
    var s := LineOf(printable, data) + rest;
    UnlineUndoes(printable, data);
    NoNewline(printable, data);
    assert s[1..] == line + [NEWLINE] + rest;
    IndexOfFirst(s[1..], NEWLINE, |line|);
    assert s[1..][..|line|] == line;
  }

  /** Loading a dump puts exactly the dumped records, in order, for every sequence of byte strings and
      both formats, whatever follows the dump. */
  lemma {:induction false} LoadUndoesDump(printable: bool, pairs: seq<Pair>, rest: seq<u8>)
    ensures LoadOf(printable, true, DumpOf(printable, pairs) + rest) == Committed(pairs)
    decreases |pairs|
  {
    hide LineOf, LineLength, ReadSpec;
    var s := DumpOf(printable, pairs) + rest;
    if pairs == [] {
      EndLineRead(printable, s);
    } else {
      var tail := DumpOf(printable, pairs[1..]) + rest;
      var second := LineOf(printable, pairs[0].data) + tail;
      assert s == LineOf(printable, pairs[0].key) + second;
      LineUndoes(printable, pairs[0].key, second);
      LineUndoes(printable, pairs[0].data, tail);
      LoadUndoesDump(printable, pairs[1..], rest);
      assert [pairs[0]] + pairs[1..] == pairs;
    }
  }

  function LinesOf(printable: bool, pairs: seq<Pair>): seq<u8> {
    if pairs == [] then [] else LineOf(printable, pairs[0].key) + (LineOf(printable, pairs[0].data) + LinesOf(printable, pairs[1..]))
  }

  /** What comes before anything unreadable is loaded. */
  lemma {:induction false} LoadsUpTo(printable: bool, pairs: seq<Pair>, rest: seq<u8>)
    ensures LoadOf(printable, true, LinesOf(printable, pairs) + rest) == Prepend(pairs, LoadOf(printable, true, rest))
    decreases |pairs|
  {
    hide LineOf, LineLength, ReadSpec;
    var s := LinesOf(printable, pairs) + rest;
    var end := LoadOf(printable, true, rest);
    if pairs == [] {
      assert s == rest;
      PrependsNone(end);
    } else {
      var tail := LinesOf(printable, pairs[1..]) + rest;
      var second := LineOf(printable, pairs[0].data) + tail;
      assert s == LineOf(printable, pairs[0].key) + second;
      LineUndoes(printable, pairs[0].key, second);
      LineUndoes(printable, pairs[0].data, tail);
      LoadsUpTo(printable, pairs[1..], rest);
      PrependsMore(pairs[0], pairs[1..], end);
      assert [pairs[0]] + pairs[1..] == pairs;
    }
  }

  lemma PrependsNone(result: LoadResult)
    ensures Prepend([], result) == result
  {
  }

  lemma PrependsMore(pair: Pair, pairs: seq<Pair>, result: LoadResult)
    ensures Prepend([pair], Prepend(pairs, result)) == Prepend([pair] + pairs, result)
  {
    if !result.Undefined? {
      assert [pair] + (pairs + result.pairs) == ([pair] + pairs) + result.pairs;
    }
  }

  /** Where the next line should be, the end of the input or a line that does not start with a space commits what
      was loaded; where the value of a key should be it aborts. */
  lemma StopsAt(printable: bool, pairs: seq<Pair>, key: seq<u8>, rest: seq<u8>)
    requires rest == [] || rest[0] != SPACE
    ensures LoadOf(printable, true, LinesOf(printable, pairs) + rest) == Committed(pairs)
    ensures LoadOf(printable, true, LinesOf(printable, pairs) + (LineOf(printable, key) + rest)) == Aborted(pairs)
  {
    LoadsUpTo(printable, pairs, rest);
    LoadsUpTo(printable, pairs, LineOf(printable, key) + rest);
    LineUndoes(printable, key, rest);
    hide LineOf, LineLength, LinesOf;
  }

  /** Records as lines without the leading space, and without a closing line: what mdb_load reads with -T. */
  function PlainOf(printable: bool, pairs: seq<Pair>): seq<u8> {
    if pairs == [] then []
    else LineOf(printable, pairs[0].key)[1..] + (LineOf(printable, pairs[0].data)[1..] + PlainOf(printable, pairs[1..]))
  }

  lemma PlainLineUndoes(printable: bool, data: seq<u8>, rest: seq<u8>)
    ensures var s := LineOf(printable, data)[1..] + rest;
            && ReadSpec(printable, false, s) == Got(data)
            && LineLength(false, s) == |LineOf(printable, data)| - 1
            && s[LineLength(false, s)..] == rest
  {
    hide TextOf, BytesOf, Unline, IndexOf;
    var line := if printable then TextOf(data) else BytesOf(data);
    var s := LineOf(printable, data)[1..] + rest;
    UnlineUndoes(printable, data);
    NoNewline(printable, data);
    assert s == line + [NEWLINE] + rest;
    IndexOfFirst(s, NEWLINE, |line|);
    assert s[..|line|] == line;
  }

  /** Without a header the records end with the input. */
  lemma {:induction false} LoadUndoesPlain(printable: bool, pairs: seq<Pair>)
    ensures LoadOf(printable, false, PlainOf(printable, pairs)) == Committed(pairs)
    decreases |pairs|
  {
    hide LineOf, LineLength, ReadSpec;
    var s := PlainOf(printable, pairs);
    if pairs == [] {
      NothingToRead(printable);
    } else {
      var tail := PlainOf(printable, pairs[1..]);
      var second := LineOf(printable, pairs[0].data)[1..] + tail;
      PlainLineUndoes(printable, pairs[0].key, second);
      PlainLineUndoes(printable, pairs[0].data, tail);
      LoadUndoesPlain(printable, pairs[1..]);
      assert [pairs[0]] + pairs[1..] == pairs;
    }
  }

  lemma NothingToRead(printable: bool)
    ensures ReadSpec(printable, false, []) == AtEnd
  {
  }

  lemma EndLineRead(printable: bool, s: seq<u8>)
    requires END_LINE <= s
    ensures ReadSpec(printable, true, s) == Finished
  {
    assert forall i :: 0 <= i < 7 ==> s[1..][i] == END_LINE[i + 1];
  }

  function Min(x: nat, y: nat): nat {
    if x < y then x else y
  }

  /** mdb_load's input and one of its line buffers. */
  class Loader {
    const input: seq<u8>
    const printable: bool
    const header: bool
    var pos: nat
    var buf: array<u8>
    var eof: bool

    ghost predicate Valid()
      reads this
    {
      pos <= |input| && 8 < buf.Length
    }

    constructor (input: seq<u8>, printable: bool, header: bool, size: nat)
      requires 8 < size
      ensures Valid() && fresh(buf) && pos == 0 && !eof
      ensures this.input == input && this.printable == printable && this.header == header
    {
      this.input, this.printable, this.header := input, printable, header;
      pos, eof := 0, false;
      buf := new u8[size];
    }

    /** fgets into the buffer at `at`: up to size - 1 bytes, no further than a newline, and a NUL. */
    method Fgets(at: nat, size: nat) returns (ok: bool, n: nat)
      requires Valid() && 2 <= size && at + size <= buf.Length
      modifies this`pos, buf
      ensures Valid() && ok == (old(pos) < |input|)
      ensures !ok ==> pos == old(pos) && buf[..] == old(buf[..])
      ensures ok ==>
                && 0 < n < size && pos == old(pos) + n
                && buf[at..at + n] == input[old(pos)..pos] && buf[at + n] == 0
                && buf[..at] == old(buf[..at])
                && n == Min(size - 1, LineSpan(input[old(pos)..]))
    {
      if pos >= |input| {
        return false, 0;
      }
      ghost var start := pos;
      n := 0;
      var done := false;
      while n < size - 1 && pos < |input| && !done
        invariant pos == start + n <= |input| && n <= size - 1
        invariant buf[at..at + n] == input[start..pos]
        invariant buf[..at] == old(buf[..at])
        invariant forall i :: start <= i < pos && !(done && i == pos - 1) ==> input[i] != NEWLINE
        invariant done ==> 0 < n && input[pos - 1] == NEWLINE
      {
        buf[at + n] := input[pos];
        done := input[pos] == NEWLINE;
        n := n + 1;
        pos := pos + 1;
      }
      buf[at + n] := 0;
      ghost var rest := input[start..];
      if done {
        IndexOfFirst(rest, NEWLINE, n - 1);
      } else {
        assert forall i :: 0 <= i < n ==> rest[i] != NEWLINE;
        assert n <= IndexOf(rest, NEWLINE);
      }
      return true, n;
    }

    /** strlen of the bytes at `at`, of which n were read. */
    method Strlen(at: nat, n: nat) returns (len: nat)
      requires at + n < buf.Length && buf[at + n] == 0
      ensures len <= n && 0 !in buf[at..at + len] && buf[at + len] == 0
    {
      len := 0;
      while buf[at + len] != 0
        invariant len <= n && 0 !in buf[at..at + len]
        decreases n - len
      {
        len := len + 1;
      }
    }

    /** The first fgets of a line and the loop that doubles the buffer until the line is complete. A NUL ends
        what was read so far; if it is the line's first byte the source looks before the buffer. */
    method FillLine() returns (filled: Filled, len: nat)
      requires Valid() && pos < |input|
      modifies this, buf
      ensures Valid() && (buf == old(buf) || fresh(buf)) && old(pos) < pos
      ensures filled.Outside? <==> old(input[pos]) == 0
      ensures filled.Complete? ==> 0 < len < buf.Length && eof == old(eof)
      ensures !filled.Complete? ==> eof
      ensures var rest := old(input[pos..]);
              var k := IndexOf(rest, NEWLINE);
              NulFree(rest) ==>
                && filled == (if k < |rest| then Complete else Incomplete)
                && (filled.Complete? ==> len == k + 1 && pos == old(pos) + len && buf[..len] == rest[..len])
    {
      hide IndexOf, LineSpan, NulFree;
      ghost var start := pos;
      ghost var rest := input[pos..];
      assert rest[0..] == rest && rest[0] == input[pos];
      var ok;
      ok, len := ReadPiece(0, buf.Length, rest);
      if len == 0 {
        NulFirst(rest);
        eof := true;
        return Outside, 0;
      }
      while buf[len - 1] != NEWLINE
        invariant Valid() && (buf == old(buf) || fresh(buf)) && eof == old(eof)
        invariant 0 < len < buf.Length && start < pos
        invariant NulFree(rest) ==>
                    && PieceOk(rest, len, start)
                    && (buf[len - 1] == NEWLINE ==> IndexOf(rest, NEWLINE) == len - 1)
                    && (buf[len - 1] != NEWLINE ==> len <= IndexOf(rest, NEWLINE) && (len == buf.Length - 1 || len == |rest|))
        decreases |input| - pos
      {
        var n;
        ok, n := ReadMore(len, rest, start);
        if !ok {
          eof := true;
          return Incomplete, len;
        }
        len := len + n;
      }
      return Complete, len;
    }

    /** Doubles the buffer and reads on behind its first `len` bytes. */
    method ReadMore(len: nat, ghost rest: seq<u8>, ghost start: nat) returns (ok: bool, n: nat)
      requires Valid() && 0 < len < buf.Length
      requires NulFree(rest) ==>
                 PieceOk(rest, len, start) && len <= IndexOf(rest, NEWLINE) && (len == buf.Length - 1 || len == |rest|)
      requires buf[len - 1] != NEWLINE
      modifies this`pos, this`buf, buf
      ensures Valid() && fresh(buf) && ok == (old(pos) < |input|) && old(pos) <= pos
      ensures ok ==> len + n < buf.Length && old(pos) < pos
      ensures NulFree(rest) ==> ok == (len < |rest|)
      ensures NulFree(rest) && ok ==>
                && 0 < n && PieceOk(rest, len + n, start)
                && (buf[len + n - 1] == NEWLINE ==> IndexOf(rest, NEWLINE) == len + n - 1)
                && (buf[len + n - 1] != NEWLINE ==>
                      len + n <= IndexOf(rest, NEWLINE) && (len + n == buf.Length - 1 || len + n == |rest|))
    {
      hide IndexOf, LineSpan, NulFree;
      var size := buf.Length;
      ghost var held := buf[..];
      Realloc(size * 2);
      assert buf[..len] == held[..len];
      IndexOfBound(rest);
      ok, n := ReadPiece(len, size + 1, rest);
    }

    /** The buffer holds the first `len` bytes of the line. */
    ghost predicate PieceOk(rest: seq<u8>, len: nat, start: nat)
      reads this, buf
    {
      && 0 < len <= |rest| && len <= buf.Length && buf[..len] == rest[..len]
      && start + len == pos && start + |rest| == |input| && rest == input[start..]
    }

    /** fgets behind the first `len` bytes, and strlen of what it read. */
    method ReadPiece(len: nat, size: nat, ghost rest: seq<u8>) returns (ok: bool, n: nat)
      requires Valid() && 2 <= size && len + size <= buf.Length
      requires NulFree(rest) ==>
                 len <= |rest| && len <= pos && rest == input[pos - len..] && buf[..len] == rest[..len] && len <= IndexOf(rest, NEWLINE)
      modifies this`pos, buf
      ensures Valid() && ok == (old(pos) < |input|) && buf[..len] == old(buf[..len]) && old(pos) <= pos
      ensures ok ==> n < size && old(pos) < pos && (n == 0 <==> old(input[pos]) == 0)
      ensures !ok ==> n == 0
      ensures NulFree(rest) && ok ==>
                && 0 < n && PieceOk(rest, len + n, old(pos) - len)
                && (buf[len + n - 1] == NEWLINE ==> IndexOf(rest, NEWLINE) == len + n - 1)
                && (buf[len + n - 1] != NEWLINE ==> len + n <= IndexOf(rest, NEWLINE) && (n == size - 1 || len + n == |rest|))
    {
      hide IndexOf, LineSpan, NulFree;
      ghost var p := pos;
      var read;
      ok, read := Fgets(len, size);
      n := 0;
      if ok {
        assert buf[len] == buf[len..len + read][0] == input[p];
        n := Strlen(len, read);
        assert n > 0 ==> buf[len] == buf[len..len + n][0];
        if NulFree(rest) {
          assert rest[len..] == input[p..];
          PieceRead(rest, len, read, size);
          if n < read {
            assert buf[len + n] == buf[len..len + read][n] == input[p..pos][n] == rest[len + n];
            NoNulInside(rest, len + n, len + read);
          }
          assert input[p..pos] == input[p..][..read] == rest[len..][..read] == rest[len..len + read];
          JoinPieces(buf[..len + n], rest, input[p..pos], len, n);
        }
      }
    }

    method Realloc(size: nat)
      requires Valid() && buf.Length <= size
      modifies this`buf
      ensures Valid() && fresh(buf) && buf.Length == size
      ensures buf[..old(buf.Length)] == old(buf[..])
    {
      var bigger := new u8[size];
      var i := 0;
      while i < buf.Length
        invariant 0 <= i <= buf.Length <= bigger.Length && bigger[..i] == buf[..i]
        invariant buf == old(buf) && buf[..] == old(buf[..])
      {
        bigger[i] := buf[i];
        i := i + 1;
      }
      buf := bigger;
    }
  
    /** The body of the decoding loop: one character or escape read at c2, one byte written at c1. */
    method DecodeChar(c1: nat, c2: nat, end: nat) returns (ok: bool, next: nat)
      requires Valid() && c1 <= c2 < end < buf.Length && buf[end] == 0
      modifies buf
      ensures var step := TextUnit(old(buf[..end]), c2);
              && ok == step.Some?
              && (ok ==> next == step.value.1 <= end && buf[c1] == step.value.0)
      ensures ok ==> forall i :: 0 <= i < buf.Length && i != c1 ==> buf[i] == old(buf[i])
    {
      hide Unhex, IsXDigit;
      next := c2;
      if buf[next] == BACKSLASH {
        if buf[next + 1] == BACKSLASH {
          buf[c1] := buf[next];
        } else {
          if next + 3 > end || !IsXDigit(buf[next + 1]) || !IsXDigit(buf[next + 2]) {
            return false, 0;
          }
          next := next + 1;
          buf[c1] := Unhex(buf[next], buf[next + 1]);
        }
        next := next + 2;
      } else {
        buf[c1] := buf[next];
        next := next + 1;
      }
      return true, next;
    }

    /** The print format decoded in place: the write pointer c1 never passes the read pointer c2. */
    method DecodeText(end: nat) returns (ok: bool, size: nat)
      requires Valid() && end < buf.Length && buf[end] == 0
      modifies buf
      ensures var data := old(Untext(buf[..end]));
              ok == data.Some? && (ok ==> size == |data.value| <= end && buf[..size] == data.value)
    {
      hide Untext, TextUnit;
      var c1: nat, c2: nat := 0, 0;
      ghost var line := buf[..end];
      JoinAllNone(line, Untext(line));
      while c2 < end
        invariant c1 <= c2 <= end && buf[end] == 0
        invariant forall i :: c2 <= i < end ==> buf[i] == line[i]
        invariant Untext(line) == JoinAll(buf[..c1], Untext(line[c2..]))
        decreases end - c2
      {
        ghost var done := buf[..c1];
        UntextStep(line, c2);
        UnitLocal(line, buf[..end], c2);
        ok, c2 := DecodeChar(c1, c2, end);
        if !ok {
          return false, 0;
        }
        c1 := c1 + 1;
        assert buf[..c1] == done + [buf[c1 - 1]];
        JoinAllOne(done, buf[c1 - 1], Untext(line[c2..]));
      }
      UntextEmpty(line[c2..]);
      return true, c1;
    }

    /** The bytevalue format decoded in place. */
    method DecodeBytes(end: nat) returns (ok: bool, size: nat)
      requires Valid() && end < buf.Length && buf[end] == 0
      modifies buf
      ensures var data := old(Unbytes(buf[..end]));
              ok == data.Some? && (ok ==> size == |data.value| <= end && buf[..size] == data.value)
    {
      hide Unbytes, Unhex, IsXDigit;
      ghost var line := buf[..end];
      if end % 2 == 1 {
        OddIsBroken(line);
        return false, 0;
      }
      var c1: nat, c2: nat := 0, 0;
      JoinAllNone(line, Unbytes(line));
      while c2 < end
        invariant c1 <= c2 <= end && c2 % 2 == 0
        invariant forall i :: c2 <= i < end ==> buf[i] == line[i]
        invariant Unbytes(line) == JoinAll(buf[..c1], Unbytes(line[c2..]))
        decreases end - c2
      {
        ghost var done := buf[..c1];
        UnbytesStep(line, c2);
        if !IsXDigit(buf[c2]) || !IsXDigit(buf[c2 + 1]) {
          return false, 0;
        }
        buf[c1] := Unhex(buf[c2], buf[c2 + 1]);
        c1 := c1 + 1;
        c2 := c2 + 2;
        assert buf[..c1] == done + [buf[c1 - 1]];
        JoinAllOne(done, buf[c1 - 1], Unbytes(line[c2..]));
      }
      UnbytesEmpty(line[c2..]);
      return true, c1;
    }

    /** The line without its newline, decoded at the start of the buffer. */
    method DecodeLine(len: nat) returns (ok: bool, size: nat)
      requires Valid() && 0 < len < buf.Length
      modifies this`eof, buf
      ensures Valid()
      ensures var data := old(Unline(printable, buf[..len - 1]));
              && ok == data.Some? && eof == (old(eof) || !ok)
              && (ok ==> size == |data.value| < len && buf[..size] == data.value)
    {
      ghost var line := buf[..len - 1];
      buf[len - 1] := 0;
      assert buf[..len - 1] == line;
      if printable {
        ok, size := DecodeText(len - 1);
      } else {
        ok, size := DecodeBytes(len - 1);
      }
      if !ok {
        eof := true;
      }
    }

    /** The rest of readline() once the character before the line is read. */
    method ReadBody() returns (result: Outcome, size: nat)
      requires Valid()
      modifies this, buf
      ensures Valid() && (buf == old(buf) || fresh(buf)) && (result.HasLine? ==> old(pos) < pos && size <= buf.Length)
      ensures eof == (old(eof) || !result.HasLine?) && !result.EndOfData?
      ensures result.ReadOutside? <==> old(pos < |input| && input[pos] == 0)
      ensures var rest := old(input[pos..]);
              NulFree(rest) ==>
                && ResultIs(LineResult(printable, rest), result, size)
                && (result.HasLine? ==> pos == old(pos) + 1 + IndexOf(rest, NEWLINE))
    {
      hide IndexOf, Unline, IsXDigit, NulFree;
      if pos >= |input| {
        eof := true;
        return EndOfInput, 0;
      }
      ghost var rest := input[pos..];
      var filled, len := FillLine();
      if filled != Complete {
        return if filled == Outside then ReadOutside else BadInput, 0;
      }
      assert NulFree(rest) ==> buf[..len - 1] == rest[..len - 1];
      var ok;
      ok, size := DecodeLine(len);
      return if ok then HasLine else BadInput, size;
    }

    ghost predicate ResultIs(spec: ReadResult, result: Outcome, size: nat)
      reads this, buf
    {
      match spec
      case Got(data) => result == HasLine && size == |data| <= buf.Length && buf[..size] == data
      case AtEnd => result == EndOfInput
      case Finished => result == EndOfData
      case Broken => result == BadInput
    }

    /** readline(): one line of input, decoded at the start of the buffer. */
    method ReadLine() returns (result: Outcome, size: nat)
      requires Valid()
      modifies this, buf
      ensures Valid() && (buf == old(buf) || fresh(buf)) && (result.HasLine? ==> old(pos) < pos && size <= buf.Length)
      ensures eof == (old(eof) || result.EndOfInput? || result.BadInput? || result.ReadOutside?)
      ensures var rest := old(input[pos..]);
              && (result.ReadOutside? <==> StartsWithNul(header, rest))
              && (NulFree(Body(header, rest)) ==>
                    && ResultIs(ReadSpec(printable, header, rest), result, size)
                    && (result.HasLine? ==> pos == old(pos) + LineLength(header, rest)))
    {
      hide IndexOf, LineResult, NulFree;
      ghost var start := input[pos..];
      if header {
        if pos >= |input| {
          eof := true;
          return EndOfInput, 0;
        }
        var c := input[pos];
        pos := pos + 1;
        assert start[1..] == input[pos..] && start[0] == c;
        if c != SPACE {
          result := EndLine(c);
          return result, 0;
        }
      }
      result, size := ReadBody();
    }

    /** main()'s loop over one database: keys and values, one line each, until readline gives up. */
    method Load() returns (result: LoadResult)
      requires Valid()
      modifies this, buf
      ensures Valid() && (buf == old(buf) || fresh(buf))
      ensures 0 !in old(input[pos..]) ==> result == LoadOf(printable, header, old(input[pos..]))
    {
      hide ReadSpec, LineLength, NulFree, Body, StartsWithNul;
      var pairs := [];
      ghost var start := input[pos..];
      PrependNone(LoadOf(printable, header, start));
      while true
        invariant Valid() && (buf == old(buf) || fresh(buf))
        invariant 0 !in start ==> 0 !in input[pos..] && LoadOf(printable, header, start) == Prepend(pairs, LoadOf(printable, header, input[pos..]))
        decreases |input| - pos
      {
        ghost var s := input[pos..];
        var line, size := ReadLine();
        NoNulAnywhere(header, s);
        if !line.HasLine? {
          return if line.ReadOutside? then Undefined else Committed(pairs);
        }
        ghost var rest := input[pos..];
        ghost var at := pos;
        var key := buf[..size];
        if 0 !in start {
          GotFits(printable, header, s);
          assert rest == s[LineLength(header, s)..];
        }
        line, size := ReadLine();
        NoNulAnywhere(header, rest);
        if !line.HasLine? {
          return if line.ReadOutside? then Undefined else Aborted(pairs);
        }
        var data := buf[..size];
        if 0 !in start {
          GotFits(printable, header, rest);
          assert input[pos..] == rest[LineLength(header, rest)..];
          PrependOne(pairs, Pair(key, data), LoadOf(printable, header, input[pos..]));
        }
        pairs := pairs + [Pair(key, data)];
      }
    }

    /** A line that does not start with a space ends the data if it is DATA=END. */
    method EndLine(c: u8) returns (result: Outcome)
      requires Valid() && c != SPACE
      modifies this`pos, this`eof, buf
      ensures Valid()
      ensures var rest := old(input[pos..]);
              if c == 0x44 && DATA_END <= rest then result == EndOfData && eof == old(eof)
              else result == BadInput && eof
    {
      ghost var rest := input[pos..];
      var ok, n := Fgets(0, buf.Length);
      if ok {
        assert rest[..n] == input[old(pos)..pos];
        assert buf[..n] == buf[0..0 + n];
        SpanOfEnd(rest, n, buf.Length);
        var same := StartsWithEnd();
        if c == 0x44 && n >= 7 && same {
          return EndOfData;
        }
      }
      eof := true;
      return BadInput;
    }

    /** strncmp(buf->mv_data, "ATA=END", 7) == 0. */
    method StartsWithEnd() returns (same: bool)
      requires Valid()
      ensures same == (buf[..7] == DATA_END)
    {
      var i := 0;
      while i < 7
        invariant 0 <= i <= 7 && buf[..i] == DATA_END[..i]
      {
        if buf[i] != DATA_END[i] {
          assert buf[..7][i] != DATA_END[i];
          return false;
        }
        i := i + 1;
      }
      return true;
    }
  }

  lemma NoNulAnywhere(header: bool, s: seq<u8>)
    ensures 0 !in s ==> NulFree(Body(header, s)) && !StartsWithNul(header, s)
  {
  }

  lemma PrependNone(result: LoadResult)
    ensures Prepend([], result) == result
  {
    if !result.Undefined? {
      assert [] + result.pairs == result.pairs;
    }
  }

  lemma PrependOne(pairs: seq<Pair>, pair: Pair, result: LoadResult)
    ensures Prepend(pairs + [pair], result) == Prepend(pairs, Prepend([pair], result))
  {
    if !result.Undefined? {
      assert pairs + [pair] + result.pairs == pairs + ([pair] + result.pairs);
    }
  }

  /** `Outside`: the source looked at the byte before its buffer. */
  datatype Filled = Complete | Incomplete | Outside

  datatype Outcome = HasLine | EndOfInput | EndOfData | BadInput | ReadOutside

  function JoinAll(bytes: seq<u8>, rest: Option<seq<u8>>): Option<seq<u8>> {
    if rest.None? then None else Some(bytes + rest.value)
  }

  lemma JoinAllNone(line: seq<u8>, rest: Option<seq<u8>>)
    ensures JoinAll([], rest) == rest && line[0..] == line && line[..0] == []
  {
    if rest.Some? {
      assert [] + rest.value == rest.value;
    }
  }

  lemma JoinAllOne(bytes: seq<u8>, c: u8, rest: Option<seq<u8>>)
    ensures JoinAll(bytes + [c], rest) == JoinAll(bytes, Join(c, rest))
  {
    if rest.Some? {
      assert bytes + [c] + rest.value == bytes + ([c] + rest.value);
    }
  }

  /** What the character or escape at position k of a line stands for, and where the next one starts. */
  function TextUnit(line: seq<u8>, k: nat): (unit: Option<(u8, nat)>)
    requires k < |line|
    ensures unit.Some? ==> k < unit.value.1 <= |line|
  {
    if line[k] != BACKSLASH then Some((line[k], k + 1))
    else if k + 1 < |line| && line[k + 1] == BACKSLASH then Some((BACKSLASH, k + 2))
    else if |line| < k + 3 || !IsXDigit(line[k + 1]) || !IsXDigit(line[k + 2]) then None
    else Some((Unhex(line[k + 1], line[k + 2]), k + 3))
  }

  lemma UntextStep(line: seq<u8>, k: nat)
    requires k < |line|
    ensures var unit := TextUnit(line, k);
            Untext(line[k..]) == if unit.None? then None else Join(unit.value.0, Untext(line[unit.value.1..]))
  {
    hide Unhex, IsXDigit;
    assert line[k..][1..] == line[k + 1..];
    if k + 2 <= |line| { assert line[k..][2..] == line[k + 2..]; }
    if k + 3 <= |line| { assert line[k..][3..] == line[k + 3..]; }
  }

  lemma UnitLocal(line: seq<u8>, now: seq<u8>, k: nat)
    requires k < |line| == |now| && forall i :: k <= i < |line| ==> now[i] == line[i]
    ensures TextUnit(now, k) == TextUnit(line, k)
  {
  }

  lemma UnbytesStep(line: seq<u8>, k: nat)
    requires k + 1 < |line|
    ensures Unbytes(line[k..]) ==
            if !IsXDigit(line[k]) || !IsXDigit(line[k + 1]) then None
            else Join(Unhex(line[k], line[k + 1]), Unbytes(line[k + 2..]))
  {
    hide Unhex, IsXDigit;
    assert line[k..][2..] == line[k + 2..];
  }

  lemma UnbytesEmpty(line: seq<u8>)
    requires line == []
    ensures Unbytes(line) == Some([])
  {
  }

  lemma UntextEmpty(line: seq<u8>)
    requires line == []
    ensures Untext(line) == Some([])
  {
  }

  lemma {:induction false} OddIsBroken(line: seq<u8>)
    requires |line| % 2 == 1
    ensures Unbytes(line) == None
    decreases |line|
  {
    if |line| >= 2 {
      OddIsBroken(line[2..]);
    }
  }

  lemma SpanOfEnd(s: seq<u8>, n: nat, size: nat)
    requires s != [] && 8 < size && n == Min(size - 1, LineSpan(s))
    ensures n >= 7 && s[..7] == DATA_END <==> DATA_END <= s
  {
    if DATA_END <= s {
      assert forall i :: 0 <= i < 7 ==> s[i] == DATA_END[i];
    }
  }

  lemma {:induction false} IndexOfSkip(s: seq<u8>, c: u8, n: nat)
    requires n <= |s| && n <= IndexOf(s, c)
    ensures IndexOf(s, c) == n + IndexOf(s[n..], c)
  {
    IndexOfFirst(s, c, n + IndexOf(s[n..], c));
  }

  lemma IndexOfBound(s: seq<u8>)
    ensures IndexOf(s, NEWLINE) <= |s|
  {
  }

  /** What one more fgets of at most size - 1 bytes tells about the line, when its first `len` bytes
      have no newline. */
  lemma PieceRead(s: seq<u8>, len: nat, n: nat, size: nat)
    requires len < |s| && len <= IndexOf(s, NEWLINE) && 2 <= size && n == Min(size - 1, LineSpan(s[len..]))
    ensures 0 < n && len + n <= |s|
    ensures s[len + n - 1] == NEWLINE ==> IndexOf(s, NEWLINE) == len + n - 1
    ensures s[len + n - 1] != NEWLINE ==> len + n <= IndexOf(s, NEWLINE) && (n == size - 1 || len + n == |s|)
  {
    IndexOfSkip(s, NEWLINE, len);
  }

  lemma JoinPieces(b: seq<u8>, rest: seq<u8>, piece: seq<u8>, len: nat, n: nat)
    requires len + n <= |rest| && |b| == len + n && b[..len] == rest[..len]
    requires b[len..] == piece == rest[len..len + n]
    ensures b == rest[..len + n]
  {
    assert b == b[..len] + b[len..];
  }
}
