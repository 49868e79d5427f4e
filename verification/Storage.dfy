/**
 * What is written as bytes: the keys of messages in the store and the length-prefixed items of a
 * snapshot stream.
 */
module Storage {

  type byte = n: nat | n < 256

  type Bytes = seq<byte>

  // ---------- Message keys ----------

  /** The low `n` bytes of a number, most significant first. */
  function BigEndian(u: nat, n: nat): (b: Bytes)
    ensures |b| == n
  {
    if n == 0 then [] else BigEndian(u / 256, n - 1) + [u % 256]
  }

  function Power(n: nat): (p: nat)
    ensures p > 0
  {
    if n == 0 then 1 else 256 * Power(n - 1)
  }

  function ValueOf(b: Bytes): nat {
    if b == [] then 0 else 256 * ValueOf(b[..|b| - 1]) + b[|b| - 1]
  }

  lemma {:induction false} BigEndianValue(u: nat, n: nat)
    requires u < Power(n)
    ensures ValueOf(BigEndian(u, n)) == u
  {
    if n > 0 {
      assert u / 256 < Power(n - 1);
      BigEndianValue(u / 256, n - 1);
      assert BigEndian(u, n)[..n - 1] == BigEndian(u / 256, n - 1);
    }
  }

  /** Order of keys: byte by byte, and a proper prefix comes first. */
  predicate Less(a: Bytes, b: Bytes) {
    b != [] && (a == [] || a[0] < b[0] || (a[0] == b[0] && Less(a[1..], b[1..])))
  }

  lemma {:induction false} LessLast(a: Bytes, b: Bytes, x: byte, y: byte)
    requires |a| == |b|
    ensures Less(a + [x], b + [y]) <==> Less(a, b) || (a == b && x < y)
  {
    if a == [] {
      assert a + [x] == [x] && b + [y] == [y];
    } else {
      assert (a + [x])[1..] == a[1..] + [x] && (b + [y])[1..] == b[1..] + [y];
      LessLast(a[1..], b[1..], x, y);
      assert a == [a[0]] + a[1..] && b == [b[0]] + b[1..];
    }
  }

  /** Big-endian keys sort as the numbers do, so a scan of the store goes by increasing id. */
  lemma {:induction false} BigEndianOrder(u: nat, w: nat, n: nat)
    requires u < Power(n) && w < Power(n)
    ensures Less(BigEndian(u, n), BigEndian(w, n)) <==> u < w
    ensures BigEndian(u, n) == BigEndian(w, n) <==> u == w
  {
    if n > 0 {
      assert u / 256 < Power(n - 1) && w / 256 < Power(n - 1);
      BigEndianOrder(u / 256, w / 256, n - 1);
      var a, b := BigEndian(u / 256, n - 1), BigEndian(w / 256, n - 1);
      LessLast(a, b, u % 256, w % 256);
      assert (a + [u % 256])[..n - 1] == a && (b + [w % 256])[..n - 1] == b;
      assert (a + [u % 256])[n - 1] == u % 256 && (b + [w % 256])[n - 1] == w % 256;
    }
  }

  lemma {:induction false} LessAfterPrefix(p: Bytes, a: Bytes, b: Bytes)
    ensures Less(p + a, p + b) <==> Less(a, b)
  {
    if p == [] {
      assert p + a == a && p + b == b;
    } else {
      assert (p + a)[1..] == p[1..] + a && (p + b)[1..] == p[1..] + b;
      LessAfterPrefix(p[1..], a, b);
    }
  }

  const MESSAGES: Bytes := [109, 101, 115, 115, 97, 103, 101, 115, 58]
  const COLON: byte := 58

  /** `messages:<queue>:` */
  function Prefix(queue: Bytes): Bytes {
    MESSAGES + queue + [COLON]
  }

  function Key(queue: Bytes, id: nat): Bytes {
    Prefix(queue) + BigEndian(id, 8)
  }

  /** Within a queue, keys sort by message id. */
  lemma KeysSortById(queue: Bytes, id: nat, other: nat)
    requires id < Power(8) && other < Power(8)
    ensures Less(Key(queue, id), Key(queue, other)) <==> id < other
  {
    LessAfterPrefix(Prefix(queue), BigEndian(id, 8), BigEndian(other, 8));
    BigEndianOrder(id, other, 8);
  }

  lemma Tail(m: Bytes, a: Bytes, b: Bytes)
    ensures m + a <= m + b <==> a <= b
  {
    if a <= b {
      assert (m + b)[..|m + a|] == m + a;
    }
    if m + a <= m + b {
      assert forall i :: 0 <= i < |a| ==> (m + a)[|m| + i] == a[i] && (m + b)[|m| + i] == b[i];
    }
  }

  lemma ShortPrefix(q: Bytes, r: Bytes, b: Bytes)
    requires |q| < |r|
    ensures q + [COLON] <= r + [COLON] + b <==> q + [COLON] <= r
  {
    assert forall i :: 0 <= i < |r| ==> (r + [COLON] + b)[i] == r[i];
  }

  lemma LongPrefix(q: Bytes, r: Bytes, b: Bytes)
    requires |q| > |r|
    ensures q + [COLON] <= r + [COLON] + b <==> r + [COLON] <= q && (q + [COLON])[|r| + 1..] <= b
  {
    var x, y := q + [COLON], r + [COLON];
    assert x == x[..|r| + 1] + x[|r| + 1..] && x[..|r| + 1] == q[..|r| + 1];
    if y <= q {
      assert x == y + x[|r| + 1..];
      Tail(y, x[|r| + 1..], b);
    }
    if x <= y + b {
      assert forall i :: 0 <= i < |y| ==> (y + b)[i] == y[i] && x[i] == q[i];
    }
  }

  /** Which keys a scan for a queue's messages meets. */
  lemma ScanMeets(queue: Bytes, other: Bytes, id: nat)
    ensures Prefix(queue) <= Key(other, id) <==>
      || queue == other
      || queue + [COLON] <= other
      || (other + [COLON] <= queue && (queue + [COLON])[|other| + 1..] <= BigEndian(id, 8))
  {
    var b := BigEndian(id, 8);
    assert Prefix(queue) == MESSAGES + (queue + [COLON]) && Key(other, id) == MESSAGES + (other + [COLON] + b);
    Tail(MESSAGES, queue + [COLON], other + [COLON] + b);
    if |queue| < |other| {
      ShortPrefix(queue, other, b);
    } else if |queue| > |other| {
      LongPrefix(queue, other, b);
    } else {
      assert queue + [COLON] <= other + [COLON] + b <==> queue == other by {
        assert forall i :: 0 <= i < |other| ==> (other + [COLON] + b)[i] == other[i];
        assert (other + [COLON] + b)[|other|] == COLON;
      }
    }
  }

  /** Queues whose names have no colon do not meet each other's messages. */
  lemma ScanIsExact(queue: Bytes, other: Bytes, id: nat)
    requires COLON !in queue && COLON !in other
    ensures Prefix(queue) <= Key(other, id) <==> queue == other
  {
    ScanMeets(queue, other, id);
    if queue + [COLON] <= other {
      ColonInside(queue, other);
      assert false;
    }
    if other + [COLON] <= queue {
      ColonInside(other, queue);
      assert false;
    }
  }

  lemma ColonInside(a: Bytes, b: Bytes)
    requires a + [COLON] <= b
    ensures COLON in b
  {
    assert b[|a|] == COLON;
  }

  /** Nothing stops a name from having one: every message of `a:b` is met by a scan for `a`. */
  lemma ScanMeetsOthers(id: nat)
    ensures Prefix([97]) <= Key([97, 58, 98], id)
  {
    ScanMeets([97], [97, 58, 98], id);
  }

  // ---------- The snapshot stream ----------

  /** The low `n` bytes, least significant first. */
  function LittleEndian(u: nat, n: nat): (b: Bytes)
    ensures |b| == n
  {
    if n == 0 then [] else [u % 256] + LittleEndian(u / 256, n - 1)
  }

  function LittleValue(b: Bytes): nat {
    if b == [] then 0 else b[0] + 256 * LittleValue(b[1..])
  }

  lemma {:induction false} LittleEndianValue(u: nat, n: nat)
    requires u < Power(n)
    ensures LittleValue(LittleEndian(u, n)) == u
  {
    if n > 0 {
      assert u / 256 < Power(n - 1);
      LittleEndianValue(u / 256, n - 1);
      assert LittleEndian(u, n)[1..] == LittleEndian(u / 256, n - 1);
    }
  }

  lemma {:induction false} LittleValueBound(b: Bytes)
    ensures LittleValue(b) < Power(|b|)
  {
    if b != [] {
      LittleValueBound(b[1..]);
    }
  }

  const LENGTH_SIZE: nat := Power(4)

  /** `WriteSnapshotItem`: the length is cut to 32 bits. */
  function Frame(data: Bytes): Bytes {
    LittleEndian(|data|, 4) + data
  }

  function Frames(items: seq<Bytes>): Bytes {
    if items == [] then [] else Frame(items[0]) + Frames(items[1..])
  }

  datatype Reading = Eof | Broken | Got(data: Bytes, rest: Bytes)

  /** `ReadSnapshotItem`: only a stream that ends before the length ends in order. */
  function ReadFrame(s: Bytes): Reading {
    if s == [] then Eof
    else if |s| < 4 then Broken
    else
      var n := LittleValue(s[..4]);
      if |s| < 4 + n then Broken else Got(s[4..4 + n], s[4 + n..])
  }

  /** Items until the stream ends, and whether it ended in order. */
  function ReadFrames(s: Bytes): (seq<Bytes>, bool)
    decreases |s|
  {
    match ReadFrame(s)
    case Eof => ([], true)
    case Broken => ([], false)
    case Got(data, rest) =>
      var (more, ok) := ReadFrames(rest); ([data] + more, ok)
  }

  /** An item is read back exactly if its length fits into 32 bits. */
  lemma FrameRoundTrip(data: Bytes, rest: Bytes)
    ensures ReadFrame(Frame(data) + rest) == Got(data, rest) <==> |data| < LENGTH_SIZE
  {
    var s := Frame(data) + rest;
    assert s[..4] == LittleEndian(|data|, 4);
    LittleValueBound(s[..4]);
    if |data| < LENGTH_SIZE {
      LittleEndianValue(|data|, 4);
      assert s[4..4 + |data|] == data && s[4 + |data|..] == rest;
    }
  }

  lemma {:induction false} StreamRoundTrip(items: seq<Bytes>)
    requires forall d :: d in items ==> |d| < LENGTH_SIZE
    ensures ReadFrames(Frames(items)) == (items, true)
  {
    if items != [] {
      FrameRoundTrip(items[0], Frames(items[1..]));
      StreamRoundTrip(items[1..]);
      assert items == [items[0]] + items[1..];
    }
  }

  lemma CutFrame(data: Bytes, k: nat)
    requires |data| < LENGTH_SIZE && 0 < k < |Frame(data)|
    ensures ReadFrame(Frame(data)[..k]) == Broken
  {
    var s := Frame(data)[..k];
    if k >= 4 {
      assert s[..4] == LittleEndian(|data|, 4);
      LittleEndianValue(|data|, 4);
    }
  }

  /**
   * A stream cut short gives the whole items before the cut, and is noticed unless the cut falls
   * between two items.
   */
  lemma {:induction false} CutStream(items: seq<Bytes>, k: nat)
    requires (forall d :: d in items ==> |d| < LENGTH_SIZE) && k <= |Frames(items)|
    ensures var (got, ok) := ReadFrames(Frames(items)[..k]);
      && got <= items && |Frames(got)| <= k && (ok <==> |Frames(got)| == k)
  {
    if items != [] {
      var first, rest := Frame(items[0]), Frames(items[1..]);
      if k == 0 {
        assert Frames(items)[..k] == [];
      } else if k < |first| {
        assert Frames(items)[..k] == first[..k];
        CutFrame(items[0], k);
      } else {
        assert Frames(items)[..k] == first + rest[..k - |first|];
        FrameRoundTrip(items[0], rest[..k - |first|]);
        CutStream(items[1..], k - |first|);
        var (more, ok) := ReadFrames(rest[..k - |first|]);
        assert ([items[0]] + more)[1..] == more;
      }
    }
  }
}
