/** Separated strings and their label form (dnameify and txt_to_c_ncpy in
    mdns/dname.c): service types typed with dots, key/value pairs with colons. */
module Text {
  import opened Bytes
  import opened Names

  /** Index of the first separator, or the length if there is none. */
  function FirstSep(s: seq<byte>, sep: byte): (i: nat)
    ensures i <= |s| && sep !in s[..i] && (i < |s| ==> s[i] == sep)
  {
    if s == [] || s[0] == sep then 0
    else
      var i := FirstSep(s[1..], sep);
      assert s[..i + 1] == [s[0]] + s[1..][..i];
      i + 1
  }

  /** The segments between the separators; always at least one. */
  function Split(s: seq<byte>, sep: byte): (r: seq<seq<byte>>)
    ensures r != []
    decreases |s|
  {
    var i := FirstSep(s, sep);
    if i == |s| then [s] else [s[..i]] + Split(s[i + 1..], sep)
  }

  /** Each segment behind its length octet. */
  function Pack(segs: seq<seq<byte>>): seq<byte> {
    if segs == [] then [] else [|segs[0]| % 0x100] + segs[0] + Pack(segs[1..])
  }

  predicate NonEmpty(segs: seq<seq<byte>>) {
    forall k :: 0 <= k < |segs| ==> segs[k] != []
  }

  lemma {:induction false} SplitAt(s: seq<byte>, sep: byte, i: nat)
    requires i <= |s| && sep !in s[..i] && (i < |s| ==> s[i] == sep)
    ensures FirstSep(s, sep) == i
  {
    if i > 0 {
      assert s[0] == s[..i][0] && s[1..][..i - 1] == s[..i][1..];
      SplitAt(s[1..], sep, i - 1);
    }
  }

  lemma {:induction false} FirstSepAtMost(s: seq<byte>, sep: byte, k: nat)
    requires k < |s| && s[k] == sep
    ensures FirstSep(s, sep) <= k
  {
    if k > 0 && s[0] != sep { FirstSepAtMost(s[1..], sep, k - 1); }
  }

  /** The string with the given segments. */
  function Join(segs: seq<seq<byte>>, sep: byte): seq<byte>
    requires segs != []
  {
    if |segs| == 1 then segs[0] else segs[0] + [sep] + Join(segs[1..], sep)
  }

  predicate SepFree(segs: seq<seq<byte>>, sep: byte) {
    forall k :: 0 <= k < |segs| ==> sep !in segs[k]
  }

  /** Splitting and joining are inverse to each other. */
  lemma {:induction false} JoinSplit(s: seq<byte>, sep: byte)
    ensures SepFree(Split(s, sep), sep) && Join(Split(s, sep), sep) == s
    decreases |s|
  {
    var i := FirstSep(s, sep);
    if i < |s| {
      JoinSplit(s[i + 1..], sep);
      var r := Split(s[i + 1..], sep);
      assert ([s[..i]] + r)[1..] == r;
      assert s == s[..i] + [sep] + s[i + 1..];
    } else {
      assert s[..i] == s;
    }
  }

  lemma {:induction false} SplitJoin(segs: seq<seq<byte>>, sep: byte)
    requires segs != [] && SepFree(segs, sep)
    ensures Split(Join(segs, sep), sep) == segs
    decreases |segs|
  {
    var s, n := Join(segs, sep), |segs[0]|;
    assert s[..n] == segs[0];
    SplitAt(s, sep, n);
    if |segs| > 1 {
      SplitJoin(segs[1..], sep);
      assert s[n + 1..] == Join(segs[1..], sep);
      assert segs == [segs[0]] + segs[1..];
    }
  }

  /** The string is refused: an empty segment after the first, an empty first
      segment behind an octet that happens to be the separator, or a string
      longer than sixteen bits can count. */
  predicate Refused(s: seq<byte>, sep: byte, before: byte) {
    var segs := Split(s, sep);
    !NonEmpty(segs[1..]) || (segs[0] == [] && before == sep) || |s| > 0xFFFF
  }

  /** From the separator at p on, the string is that of the segments segs. */
  predicate Collected(s: seq<byte>, sep: byte, p: nat, segs: seq<seq<byte>>) {
    && NonEmpty(segs) && SepFree(segs, sep) && p <= |s|
    && s[p..] == if segs == [] then [] else [sep] + Join(segs, sep)
  }

  /** The conversion, in place when src and dst are the same buffer: before is
      the octet in front of the string, which the last pass looks at. */
  method PackString(src: array<byte>, dst: array<byte>, len: nat, sep: byte, before: byte)
    returns (ret: int)
    requires len < src.Length && len < dst.Length
    modifies dst
    ensures ret == -1 <==> Refused(old(src[..len]), sep, before)
    ensures ret != -1 ==>
              ret == len + 1 && dst[..len + 1] == Pack(Split(old(src[..len]), sep))
    ensures dst[len + 1..] == old(dst[len + 1..])
  {
    hide Moved, Refused, Split, Pack;
    ghost var s, segs: seq<seq<byte>> := src[..len], [];
    MovedNothing(dst[..], s, sep);
    var d, total, labelLen := len, 0, 0;
    while true
      invariant 0 <= labelLen && 0 <= d <= d + labelLen <= len
      invariant total == len - d - labelLen <= 0x1_0000
      invariant forall k :: 0 <= k < d ==> src[k] == s[k]
      invariant Moved(dst[..], s, sep, d, labelLen, segs)
      invariant dst[len + 1..] == old(dst[len + 1..])
      decreases d
    {
      var c: byte := if d == 0 then before else src[d - 1];
      ghost var b: seq<byte> := dst[..];
      if c == sep && labelLen == 0 {
        RefusedHere(dst[..], s, sep, before, d, segs);
        return -1;
      }
      if d == 0 || c == sep {
        var x: byte := labelLen % 0x100;
        dst[d] := x;
        CloseLabel(b, s, sep, before, d, labelLen, segs);
        assert dst[..] == b[d := x];
        if 0xFFFF - total < labelLen {
          TooLongIsRefused(s, sep, before);
          return -1;
        }
        segs := [s[d..d + labelLen]] + segs;
        total := total + labelLen + 1;
        labelLen := 0;
        if d == 0 {
          break;
        }
        d := d - 1;
        continue;
      }
      dst[d] := c;
      MoveOctet(b, s, sep, d, labelLen, segs);
      assert dst[..] == b[d := c];
      d := d - 1;
      labelLen := labelLen + 1;
    }
    ret := total;
  }

  /** Progress of the conversion: the label being collected has been moved up by
      one octet, and the labels behind it are packed. */
  predicate Moved(b: seq<byte>, s: seq<byte>, sep: byte, d: nat, n: nat, segs: seq<seq<byte>>) {
    && d + n <= |s| < |b|
    && b[d + 1..d + n + 1] == s[d..d + n] && sep !in s[d..d + n]
    && b[d + n + 1..|s| + 1] == Pack(segs) && Collected(s, sep, d + n, segs)
  }

  lemma MovedNothing(b: seq<byte>, s: seq<byte>, sep: byte)
    requires |s| < |b|
    ensures Moved(b, s, sep, |s|, 0, [])
  {
  }

  lemma TooLongIsRefused(s: seq<byte>, sep: byte, before: byte)
    requires |s| > 0xFFFF
    ensures Refused(s, sep, before)
  {
  }

  lemma MoveOctet(b: seq<byte>, s: seq<byte>, sep: byte, d: nat, n: nat, segs: seq<seq<byte>>)
    requires Moved(b, s, sep, d, n, segs) && d > 0 && s[d - 1] != sep
    ensures Moved(b[d := s[d - 1]], s, sep, d - 1, n + 1, segs)
  {
    var b' := b[d := s[d - 1]];
    assert s[d - 1..d + n] == [s[d - 1]] + s[d..d + n];
    assert b'[d..d + n + 1] == [s[d - 1]] + b[d + 1..d + n + 1];
    assert b'[d + n + 1..|s| + 1] == b[d + n + 1..|s| + 1];
  }

  /** Closing the label of n octets at d. */
  lemma CloseLabel(b: seq<byte>, s: seq<byte>, sep: byte, before: byte, d: nat, n: nat, segs: seq<seq<byte>>)
    requires Moved(b, s, sep, d, n, segs)
    ensures d > 0 && n > 0 && s[d - 1] == sep ==>
              Moved(b[d := n % 0x100], s, sep, d - 1, 0, [s[d..d + n]] + segs)
    ensures d == 0 ==> b[0 := n % 0x100][..|s| + 1] == Pack(Split(s, sep))
    ensures d == 0 && (n > 0 || before != sep) && |s| <= 0xFFFF ==> !Refused(s, sep, before)
  {
    hide SepFree, NonEmpty, Join, FirstSep, Pack, Split;
    var b', all := b[d := n % 0x100], [s[d..d + n]] + segs;
    ClosePacked(b, s, d, n, segs);
    CloseJoined(s, sep, d, n, segs);
    if d == 0 {
      assert s[0..] == s && b'[..|s| + 1] == b'[0..|s| + 1];
    } else if s[d - 1] == sep && n > 0 {
      assert s[d - 1..] == [sep] + s[d..];
      assert s[d - 1..d - 1] == [] && b'[d..d] == [];
    }
  }

  lemma ClosePacked(b: seq<byte>, s: seq<byte>, d: nat, n: nat, segs: seq<seq<byte>>)
    requires d + n <= |s| < |b| && b[d + 1..d + n + 1] == s[d..d + n]
    requires b[d + n + 1..|s| + 1] == Pack(segs)
    ensures b[d := n % 0x100][d..|s| + 1] == Pack([s[d..d + n]] + segs)
  {
    var b', all := b[d := n % 0x100], [s[d..d + n]] + segs;
    assert all[1..] == segs;
    assert b'[d..|s| + 1] == [n % 0x100] + b[d + 1..d + n + 1] + b[d + n + 1..|s| + 1];
  }

  lemma CloseJoined(s: seq<byte>, sep: byte, d: nat, n: nat, segs: seq<seq<byte>>)
    requires d + n <= |s| && sep !in s[d..d + n] && Collected(s, sep, d + n, segs)
    ensures var all := [s[d..d + n]] + segs;
            && SepFree(all, sep) && s[d..] == Join(all, sep) && all[1..] == segs
            && (n > 0 ==> NonEmpty(all))
            && Split(s[d..], sep) == all
  {
    var all := [s[d..d + n]] + segs;
    assert all[1..] == segs && SepFree(all, sep);
    assert s[d..] == s[d..d + n] + s[d + n..];
    SplitJoin(all, sep);
  }

  /** An empty segment met at d is one of the segments of the whole string. */
  lemma RefusedHere(b: seq<byte>, s: seq<byte>, sep: byte, before: byte, d: nat, segs: seq<seq<byte>>)
    requires Moved(b, s, sep, d, 0, segs)
    requires if d == 0 then before == sep else d <= |s| && s[d - 1] == sep
    ensures Refused(s, sep, before)
  {
    var all := [[]] + segs;
    assert all[1..] == segs && SepFree(all, sep);
    assert s[d..] == Join(all, sep) by { assert [] + s[d..] == s[d..]; }
    SplitJoin(all, sep);
    if d == 0 {
      assert s[0..] == s;
    } else {
      TailSegments(s, sep, d);
    }
  }

  lemma {:induction false} TailSegments(s: seq<byte>, sep: byte, d: nat)
    requires 0 < d <= |s| && s[d - 1] == sep && Split(s[d..], sep)[0] == []
    ensures !NonEmpty(Split(s, sep)[1..])
    decreases |s|
  {
    var i := FirstSep(s, sep);
    FirstSepAtMost(s, sep, d - 1);
    var t := Split(s[i + 1..], sep);
    assert Split(s, sep)[1..] == t;
    if i == d - 1 {
      assert t[0] == [];
    } else {
      assert s[i + 1..][d - i - 1..] == s[d..];
      TailSegments(s[i + 1..], sep, d - i - 1);
      assert forall k :: 0 <= k < |t[1..]| ==> t[1..][k] == t[k + 1];
    }
  }

  /** A dotted service type with labels of legal length becomes, once closed by
      a root octet, the wire form of its labels. */
  lemma DottedNameDecodes(s: seq<byte>, sep: byte, b: seq<byte>)
    requires ValidName(Split(s, sep))
    requires Pack(Split(s, sep)) + [0] <= b
    ensures NameAt(b, 0) && LabelsAt(b, 0) == Split(s, sep)
  {
    var n := Split(s, sep);
    PackIsLabelBytes(n);
    assert b[0..|Encode(n)|] == b[..|Encode(n)|] == Encode(n);
    EncodedNameAt(b, 0, 0, n);
  }

  lemma {:induction false} PackIsLabelBytes(n: Name)
    requires ValidName(n)
    ensures Pack(n) == LabelBytes(n)
  {
    if n != [] { PackIsLabelBytes(n[1..]); }
  }

  // ----- TXT data back to a string -----

  datatype TextOutcome = Text(out: seq<byte>) | TextFault

  const COLON: byte := 58

  /** The copy loop: offset in the TXT data, octets of it left, room left by
      the loop's own count, and what has been written. */
  datatype Cursor = Cursor(i: nat, left: int, remaining: nat, out: seq<byte>)

  datatype Pass = More(cursor: Cursor) | Done(outcome: TextOutcome)

  /** One pass over TXT data, into a buffer of the given size; leaving either
      buffer is a fault. */
  function TextPass(txt: seq<byte>, c: Cursor, size: nat): (p: Pass)
    ensures p.More? ==> c.i < p.cursor.i && c.i < |txt|
  {
    if c.i >= |txt| then Done(TextFault)
    else if txt[c.i] == 0 || c.left == 0 then
      Done(if |c.out| >= size then TextFault else Text(c.out))
    else
      var n: int := txt[c.i];
      if n > c.remaining then More(c.(i := c.i + n + 1))
      else if c.i + n + 1 > |txt| || |c.out| + n >= size then Done(TextFault)
      else
        var out := c.out + txt[c.i + 1..c.i + n + 1];
        if c.remaining - n <= 1 || c.left - n - 1 == 0 then Done(Text(out))
        else More(Cursor(c.i + n + 1, c.left - n - 1, c.remaining - n, out + [COLON]))
  }

  function TextFrom(txt: seq<byte>, c: Cursor, size: nat): TextOutcome
    decreases |txt| - c.i
  {
    match TextPass(txt, c, size)
    case Done(o) => o
    case More(c') => TextFrom(txt, c', size)
  }

  lemma OnePass(txt: seq<byte>, c: Cursor, size: nat)
    ensures TextFrom(txt, c, size) ==
            match TextPass(txt, c, size) { case Done(o) => o case More(c') => TextFrom(txt, c', size) }
  {
  }

  method UnpackText(dst: array<byte>, txt: seq<byte>, tlen: int) returns (r: TextOutcome)
    requires dst.Length >= 1
    modifies dst
    ensures r == TextFrom(txt, Cursor(0, tlen, dst.Length - 1, []), dst.Length)
    ensures r.Text? ==> |r.out| < dst.Length && r.out + [0] <= dst[..]
  {
    hide TextFrom;
    var i: nat, left, remaining: nat, n: nat := 0, tlen, dst.Length - 1, 0;
    ghost var start := Cursor(0, tlen, dst.Length - 1, []);
    while true
      invariant n <= dst.Length
      invariant TextFrom(txt, start, dst.Length) == TextFrom(txt, Cursor(i, left, remaining, dst[..n]), dst.Length)
      decreases |txt| - i
    {
      OnePass(txt, Cursor(i, left, remaining, dst[..n]), dst.Length);
      if i >= |txt| { return TextFault; }
      if txt[i] == 0 || left == 0 { break; }
      var k: int := txt[i];
      if k > remaining {
        i := i + k + 1;
        continue;
      }
      if i + k + 1 > |txt| || n + k >= dst.Length { return TextFault; }
      CopyOctets(dst, n, txt[i + 1..i + k + 1]);
      remaining := remaining - k;
      left := left - (k + 1);
      n := n + k;
      i := i + k + 1;
      if remaining == 0 || remaining == 1 || left == 0 {
        break;
      }
      dst[n] := COLON;
      assert dst[..n + 1] == dst[..n] + [COLON];
      n := n + 1;
    }
    if n >= dst.Length { return TextFault; }
    dst[n] := 0;
    return Text(dst[..n]);
  }

  /** Key/value pairs survive the way into a TXT record and back. */
  lemma TextRoundTrip(s: seq<byte>, size: nat)
    requires |s| + 1 <= MAX_NAME && NonEmpty(Split(s, COLON)) && |s| + 2 <= size
    ensures TextFrom(Pack(Split(s, COLON)), Cursor(0, |s| + 1, size - 1, []), size) == Text(s)
  {
    var segs := Split(s, COLON);
    JoinSplit(s, COLON);
    assert Pack(segs)[0..] == Pack(segs) && [] + s == s;
    RestRoundTrip(Pack(segs), segs, Cursor(0, |s| + 1, size - 1, []), size);
  }

  lemma FirstPair(txt: seq<byte>, k: nat, segs: seq<seq<byte>>)
    requires segs != [] && |segs[0]| < 0x100 && k <= |txt| && txt[k..] == Pack(segs)
    ensures var n := |segs[0]|;
            k + n + 1 <= |txt| && txt[k] == n && txt[k + 1..k + n + 1] == segs[0] &&
            txt[k + n + 1..] == Pack(segs[1..])
  {
    var n := |segs[0]|;
    assert txt[k..] == [n] + segs[0] + Pack(segs[1..]);
    assert txt[k] == txt[k..][0] && txt[k + 1..k + n + 1] == txt[k..][1..n + 1];
    assert txt[k + n + 1..] == txt[k..][n + 1..];
  }

  /** The cursor stands before the packed segments, with room for them. */
  predicate Ahead(txt: seq<byte>, segs: seq<seq<byte>>, c: Cursor, size: nat) {
    && segs != [] && NonEmpty(segs) && c.i <= |txt| && txt[c.i..] == Pack(segs)
    && c.left == |Join(segs, COLON)| + 1 <= 0x100
    && |Join(segs, COLON)| < c.remaining && |c.out| + |Join(segs, COLON)| < size
  }

  lemma PassOverPair(txt: seq<byte>, segs: seq<seq<byte>>, c: Cursor, size: nat)
    requires Ahead(txt, segs, c, size)
    ensures |segs| == 1 ==> TextPass(txt, c, size) == Done(Text(c.out + segs[0]))
    ensures |segs| > 1 ==>
              TextPass(txt, c, size).More? && var c' := TextPass(txt, c, size).cursor;
              Ahead(txt, segs[1..], c', size) && c'.out == c.out + segs[0] + [COLON]
  {
    assert segs[0] != [];
    FirstPair(txt, c.i, segs);
  }

  /** The same for the segments left at the cursor. */
  lemma {:induction false} RestRoundTrip(txt: seq<byte>, segs: seq<seq<byte>>, c: Cursor, size: nat)
    requires Ahead(txt, segs, c, size)
    ensures TextFrom(txt, c, size) == Text(c.out + Join(segs, COLON))
    decreases |segs|
  {
    hide TextPass, Pack, NonEmpty;
    PassOverPair(txt, segs, c, size);
    if |segs| > 1 {
      var c' := TextPass(txt, c, size).cursor;
      RestRoundTrip(txt, segs[1..], c', size);
      assert c'.out + Join(segs[1..], COLON) == c.out + Join(segs, COLON);
    }
  }

  // ----- when unpacking stays in its buffers -----

  predicate Pairs(segs: seq<seq<byte>>) {
    forall k :: 0 <= k < |segs| ==> 1 <= |segs[k]| < 0x100
  }

  /** The pairs that are copied with some room: each that fits, until there is room
      for no more than one octet. */
  function Chosen(segs: seq<seq<byte>>, room: nat): (r: seq<seq<byte>>)
    ensures |r| <= |segs|
  {
    if segs == [] then []
    else if |segs[0]| > room then Chosen(segs[1..], room)
    else if room - |segs[0]| <= 1 then [segs[0]]
    else [segs[0]] + Chosen(segs[1..], room - |segs[0]|)
  }

  /** Their octets, without the colons, which the room does not count. */
  function Octets(segs: seq<seq<byte>>): nat {
    if segs == [] then 0 else |segs[0]| + Octets(segs[1..])
  }

  /** They leave room for no more than one octet. */
  predicate Fills(segs: seq<seq<byte>>, room: nat) {
    segs != [] && Octets(segs) + 1 >= room
  }

  /** Each with a colon behind it. */
  function Closed(segs: seq<seq<byte>>): seq<byte> {
    if segs == [] then [] else segs[0] + [COLON] + Closed(segs[1..])
  }

  /** What a buffer can hold, with the zero behind it. */
  function Fit(out: seq<byte>, size: nat): TextOutcome {
    if |out| < size then Text(out) else TextFault
  }

  /** What becomes of the pairs still to be read, before an empty pair or the end of
      the data, when some were left out before or not: copied up to the last that
      fits, up to the empty pair, or read beyond the end. */
  function Unpacked(segs: seq<seq<byte>>, room: nat, empty: bool, skipped: bool, out: seq<byte>, size: nat): TextOutcome {
    var chosen := Chosen(segs, room);
    if Fills(chosen, room) || (!empty && !skipped && segs != [] && |chosen| == |segs|) then Fit(out + Join(chosen, COLON), size)
    else if empty then Fit(out + Closed(chosen), size)
    else TextFault
  }

  lemma {:induction false} JoinSize(segs: seq<seq<byte>>)
    ensures |Closed(segs)| == Octets(segs) + |segs|
    ensures segs != [] ==> |Join(segs, COLON)| + 1 == |Closed(segs)|
  {
    if segs != [] {
      JoinSize(segs[1..]);
    }
  }

  /** A pair that does not fit is left out. */
  lemma SkipFirst(segs: seq<seq<byte>>, room: nat, empty: bool, skipped: bool, out: seq<byte>, size: nat)
    requires segs != [] && |segs[0]| > room
    ensures Unpacked(segs, room, empty, skipped, out, size) == Unpacked(segs[1..], room, empty, true, out, size)
  {
  }

  /** A pair that is the last one to be copied. */
  lemma CopyLast(segs: seq<seq<byte>>, room: nat, empty: bool, skipped: bool, out: seq<byte>, size: nat)
    requires segs != [] && |segs[0]| <= room
    requires room - |segs[0]| <= 1 || (|segs| == 1 && !empty && !skipped)
    ensures Unpacked(segs, room, empty, skipped, out, size) == Fit(out + segs[0], size)
  {
    var last := [segs[0]];
    assert last[1..] == [];
    if room - |segs[0]| > 1 {
      assert segs[1..] == [] && last + [] == last;
    }
  }

  /** Any other pair that fits. */
  lemma CopyFirst(segs: seq<seq<byte>>, room: nat, empty: bool, skipped: bool, out: seq<byte>, size: nat)
    requires segs != [] && |segs[0]| <= room && room - |segs[0]| > 1 && (|segs| > 1 || empty || skipped)
    ensures Unpacked(segs, room, empty, skipped, out, size) ==
            if |out| + |segs[0]| >= size then TextFault
            else Unpacked(segs[1..], room - |segs[0]|, empty, skipped, out + segs[0] + [COLON], size)
  {
    hide Join, Closed, Octets;
    var s, more := segs[0], Chosen(segs[1..], room - |segs[0]|);
    assert Chosen(segs, room) == [s] + more;
    MoreChosen(s, more, out);
  }

  lemma MoreChosen(s: seq<byte>, more: seq<seq<byte>>, out: seq<byte>)
    ensures Octets([s] + more) == |s| + Octets(more) && Octets([]) == 0
    ensures more != [] ==> out + Join([s] + more, COLON) == out + s + [COLON] + Join(more, COLON)
    ensures out + Closed([s] + more) == out + s + [COLON] + Closed(more)
    ensures |out + Join([s] + more, COLON)| >= |out| + |s|
  {
    var chosen := [s] + more;
    assert chosen[1..] == more;
    if more != [] {
      assert out + Join(chosen, COLON) == out + s + [COLON] + Join(more, COLON);
    }
  }

  lemma PassSkips(txt: seq<byte>, segs: seq<seq<byte>>, c: Cursor, size: nat)
    requires c.i < |txt| && segs != [] && 1 <= |segs[0]| < 0x100 && txt[c.i] == |segs[0]| && c.left > 0
    requires c.i + |segs[0]| + 1 <= |txt| && txt[c.i + 1..c.i + |segs[0]| + 1] == segs[0]
    ensures var n := |segs[0]|;
            TextPass(txt, c, size) ==
            if n > c.remaining then More(c.(i := c.i + n + 1))
            else if |c.out| + n >= size then Done(TextFault)
            else if c.remaining - n <= 1 || c.left - n - 1 == 0 then Done(Text(c.out + segs[0]))
            else More(Cursor(c.i + n + 1, c.left - n - 1, c.remaining - n, c.out + segs[0] + [COLON]))
  {
  }

  lemma FirstOf(txt: seq<byte>, k: nat, segs: seq<seq<byte>>, rest: seq<byte>)
    requires segs != [] && Pairs(segs) && k <= |txt| && txt[k..] == Pack(segs) + rest
    ensures var n := |segs[0]|;
            && 1 <= n < 0x100 && k + n + 1 <= |txt| && txt[k] == n && txt[k + 1..k + n + 1] == segs[0]
            && txt[k + n + 1..] == Pack(segs[1..]) + rest && |Pack(segs)| == n + 1 + |Pack(segs[1..])|
  {
    hide Pack;
    assert 1 <= |segs[0]| < 0x100;
    PackFirst(segs);
    var a, b, c := [|segs[0]|], segs[0], Pack(segs[1..]);
    assert a + b + c + rest == a + b + (c + rest);
    SliceHead(txt, k, a, b, c + rest);
  }

  lemma PackFirst(segs: seq<seq<byte>>)
    requires segs != [] && |segs[0]| < 0x100
    ensures Pack(segs) == [|segs[0]|] + segs[0] + Pack(segs[1..])
  {
  }

  lemma SliceHead(txt: seq<byte>, k: nat, a: seq<byte>, b: seq<byte>, c: seq<byte>)
    requires k <= |txt| && txt[k..] == a + b + c && |a| == 1
    ensures k + 1 + |b| <= |txt| && txt[k] == a[0] && txt[k + 1..k + 1 + |b|] == b && txt[k + 1 + |b|..] == c
  {
    var t := txt[k..];
    assert txt[k] == t[0] && txt[k + 1..k + 1 + |b|] == t[1..1 + |b|] && txt[k + 1 + |b|..] == t[1 + |b|..];
  }

  /** The cursor stands before pairs, of which some octets were left out before, and
      behind them is nothing or an empty pair. */
  predicate Facing(txt: seq<byte>, segs: seq<seq<byte>>, rest: seq<byte>, c: Cursor, left: nat) {
    && Pairs(segs) && c.i <= |txt| && txt[c.i..] == Pack(segs) + rest && (rest == [] || rest[0] == 0)
    && c.left == |Pack(segs)| + |rest| + left
  }

  lemma {:induction false} Unpacks(txt: seq<byte>, segs: seq<seq<byte>>, rest: seq<byte>, c: Cursor, left: nat, size: nat)
    requires Facing(txt, segs, rest, c, left)
    ensures TextFrom(txt, c, size) == Unpacked(segs, c.remaining, rest != [], left > 0, c.out, size)
    decreases |segs|
  {
    hide TextPass, Unpacked, Pack, Pairs;
    OnePass(txt, c, size);
    if segs == [] {
      NoPairs(txt, rest, c, left, size);
      return;
    }
    FirstOf(txt, c.i, segs, rest);
    RestPairs(segs);
    PassSkips(txt, segs, c, size);
    var n, p, empty := |segs[0]|, TextPass(txt, c, size), rest != [];
    if n > c.remaining {
      SkipFirst(segs, c.remaining, empty, left > 0, c.out, size);
      Unpacks(txt, segs[1..], rest, p.cursor, left + n + 1, size);
    } else if c.remaining - n <= 1 || (|segs| == 1 && !empty && left == 0) {
      CopyLast(segs, c.remaining, empty, left > 0, c.out, size);
      NothingPacked(segs);
    } else {
      CopyFirst(segs, c.remaining, empty, left > 0, c.out, size);
      NothingPacked(segs);
      if p.More? {
        Unpacks(txt, segs[1..], rest, p.cursor, left, size);
      }
    }
  }

  lemma NoPairs(txt: seq<byte>, rest: seq<byte>, c: Cursor, left: nat, size: nat)
    requires Facing(txt, [], rest, c, left)
    ensures TextFrom(txt, c, size) == Unpacked([], c.remaining, rest != [], left > 0, c.out, size)
  {
    assert txt[c.i..] == [] + rest == rest;
    if rest != [] {
      assert txt[c.i] == rest[0];
      assert c.out + [] == c.out;
    }
  }

  lemma RestPairs(segs: seq<seq<byte>>)
    requires Pairs(segs) && segs != []
    ensures Pairs(segs[1..])
  {
  }

  lemma NothingPacked(segs: seq<seq<byte>>)
    requires segs != []
    ensures |segs| == 1 <==> Pack(segs[1..]) == []
  {
  }

  /** Exactly when unpacking received pairs leaves a buffer, for a text buffer of any
      size.  If it ends with a pair, the buffer full by the code's count or every pair
      copied, the octets and colons copied must fit; if at an empty pair, with one
      colon more; otherwise, a pair having been left out, it reads on behind the
      data. */
  lemma UnpackFaultsIff(segs: seq<seq<byte>>, rest: seq<byte>, size: nat)
    requires Pairs(segs) && (rest == [] || rest[0] == 0) && size >= 1
    ensures var txt, chosen := Pack(segs) + rest, Chosen(segs, size - 1);
            var r, written := TextFrom(txt, Cursor(0, |txt|, size - 1, []), size), Octets(chosen) + |chosen|;
            if Fills(chosen, size - 1) || (rest == [] && segs != [] && |chosen| == |segs|) then
              (r == TextFault <==> written > size) && (r.Text? ==> r.out == Join(chosen, COLON))
            else
              (r == TextFault <==> rest == [] || written >= size) && (r.Text? ==> r.out == Closed(chosen))
  {
    hide TextFrom, Pack, Join, Closed, Octets;
    var txt, chosen := Pack(segs) + rest, Chosen(segs, size - 1);
    assert txt[0..] == txt;
    Unpacks(txt, segs, rest, Cursor(0, |txt|, size - 1, []), 0, size);
    JoinSize(chosen);
    assert [] + Closed(chosen) == Closed(chosen);
    assert chosen != [] ==> [] + Join(chosen, COLON) == Join(chosen, COLON);
  }

  lemma {:induction false} AllChosen(segs: seq<seq<byte>>, room: nat)
    requires Pairs(segs) && segs != [] && Octets(segs) + |segs| <= room + 1
    ensures Chosen(segs, room) == segs
    decreases |segs|
  {
    RestPairs(segs);
    if |segs| == 1 {
      assert segs == [segs[0]] && segs[1..] == [];
    } else {
      AtLeastCount(segs[1..]);
      AllChosen(segs[1..], room - |segs[0]|);
      assert segs == [segs[0]] + segs[1..];
    }
  }

  lemma {:induction false} AtLeastCount(segs: seq<seq<byte>>)
    requires Pairs(segs)
    ensures Octets(segs) >= |segs|
  {
    if segs != [] {
      RestPairs(segs);
      AtLeastCount(segs[1..]);
    }
  }

  lemma {:induction false} PackSize(segs: seq<seq<byte>>)
    ensures |Pack(segs)| == Octets(segs) + |segs|
  {
    if segs != [] {
      PackSize(segs[1..]);
    }
  }

  /** TXT data no longer than the buffer are unpacked whole. */
  lemma UnpackWhole(segs: seq<seq<byte>>, size: nat)
    requires Pairs(segs) && segs != [] && |Pack(segs)| <= size
    ensures TextFrom(Pack(segs), Cursor(0, |Pack(segs)|, size - 1, []), size) == Text(Join(segs, COLON))
  {
    hide TextFrom, Pack, Join, Octets, Chosen;
    PackSize(segs);
    AllChosen(segs, size - 1);
    JoinSize(segs);
    assert Pack(segs)[0..] == Pack(segs) == Pack(segs) + [];
    Unpacks(Pack(segs), segs, [], Cursor(0, |Pack(segs)|, size - 1, []), 0, size);
    assert [] + Join(segs, COLON) == Join(segs, COLON);
  }

  function Same(n: nat, l: nat): (segs: seq<seq<byte>>)
    requires 1 <= l < 0x100
    ensures |segs| == n && Pairs(segs)
  {
    seq(n, _ => seq(l, _ => 97))
  }

  lemma {:induction false} SameChosen(n: nat, room: nat)
    requires room >= n + 2
    ensures Chosen(Same(n, 1), room) == Same(n, 1) && Octets(Same(n, 1)) == n
  {
    if n > 0 {
      SameChosen(n - 1, room - 1);
      assert Same(n, 1)[1..] == Same(n - 1, 1);
      assert Same(n, 1) == [Same(n, 1)[0]] + Same(n - 1, 1);
    }
  }

  /** 129 pairs of one octet leave the 256 octets of the querier's text buffer. */
  lemma ManyPairsOverrun()
    ensures var txt := Pack(Same(129, 1));
            |txt| == 258 && TextFrom(txt, Cursor(0, |txt|, 255, []), 256) == TextFault
  {
    hide TextFrom, Pack, Chosen, Octets;
    var segs := Same(129, 1);
    SameChosen(129, 255);
    PackSize(segs);
    assert Pack(segs) + [] == Pack(segs);
    UnpackFaultsIff(segs, [], 256);
  }

  /** The second of two pairs of 200 octets is left out, and what lies behind the
      data is read for it. */
  lemma LongPairOverruns()
    ensures var txt := Pack(Same(2, 200));
            |txt| == 402 && TextFrom(txt, Cursor(0, |txt|, 255, []), 256) == TextFault
  {
    hide TextFrom, Pack;
    var segs := Same(2, 200);
    var tail := segs[1..];
    assert tail[1..] == [] && Chosen(tail, 55) == Chosen(tail[1..], 55) == [];
    var chosen := Chosen(segs, 255);
    assert |chosen| == 1 && chosen[0] == segs[0] && chosen[1..] == [];
    assert Octets(chosen) == 200;
    assert Octets(tail) == 200 && Octets(segs) == 400;
    PackSize(segs);
    assert Pack(segs) + [] == Pack(segs);
    UnpackFaultsIff(segs, [], 256);
  }

  /** The header promises that keyvals ":" announces an empty TXT record; the
      conversion refuses it, so a launch with it fails. */
  lemma ColonAloneIsRefused(before: byte)
    ensures Refused([COLON], COLON, before)
  {
    var s := [COLON];
    assert FirstSep(s, COLON) == 0 && s[1..] == [];
    assert FirstSep([], COLON) == 0 && Split([], COLON) == [[]];
    var t := Split(s, COLON)[1..];
    assert t == Split([], COLON) && t[0] == [];
  }
}
