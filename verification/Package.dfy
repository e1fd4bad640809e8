/** `Package`: frames of a two-byte length, low byte first, and a body. */
module Framing {
  import opened Ring

  const HEAD := 2
  const LIMIT := 0x1_0000

  /** The length as `uint16`. */
  function Header(n: nat): (h: seq<byte>)
    ensures |h| == HEAD
  {
    [(n % 256) as byte, (n / 256 % 256) as byte]
  }

  /** What the two bytes at the front say. */
  function BodySize(s: seq<byte>): (n: nat)
    requires HEAD <= |s|
  {
    s[0] as int + 256 * s[1] as int
  }

  function Frame(m: seq<byte>): seq<byte> { Header(|m|) + m }

  /** `Pack`: the header is written in any case, the body if there is room. */
  method Pack(msg: array<byte>, pkg: array<byte>) returns (ret: nat)
    requires msg != pkg && HEAD <= pkg.Length && msg.Length + HEAD < WORD
    modifies pkg
    ensures ret == msg.Length + HEAD
    ensures ret <= pkg.Length ==> pkg[..ret] == Frame(msg[..]) && pkg[ret..] == old(pkg[ret..])
    ensures pkg.Length < ret ==> pkg[..HEAD] == Header(msg.Length) && pkg[HEAD..] == old(pkg[HEAD..])
  {
    pkg[0], pkg[1] := (msg.Length % 256) as byte, (msg.Length / 256 % 256) as byte;
    if pkg.Length < msg.Length + HEAD { return msg.Length + HEAD; }
    CopyBytes(msg, 0, pkg, HEAD, msg.Length);
    assert pkg[..HEAD + msg.Length] == pkg[..HEAD] + pkg[HEAD..HEAD + msg.Length];
    return msg.Length + HEAD;
  }

  /** `Unpack` of the bytes from `from` on. When the caller's buffer is too small it says how
      much it needs, else how far to advance. A result of more than the room is to say just
      that the room is too small: so it does, unless the room is enough for the body and not
      for the body and its header. */
  method Unpack(msg: array<byte>, from: nat, pkg: array<byte>) returns (ret: nat)
    requires msg != pkg && from + HEAD <= msg.Length
    requires BodySize(msg[from..]) <= pkg.Length ==> from + HEAD + BodySize(msg[from..]) <= msg.Length
    modifies pkg
    ensures var n := BodySize(msg[from..]);
      if pkg.Length < n then ret == n && pkg[..] == old(pkg[..])
      else ret == n + HEAD && pkg[..n] == msg[from + HEAD..from + ret] && pkg[n..] == old(pkg[n..])
    ensures var n := BodySize(msg[from..]);
      (ret > pkg.Length <==> pkg.Length < n) <==> !(n <= pkg.Length < n + HEAD)
  {
    var bodySize := msg[from] as int + 256 * msg[from + 1] as int;
    if pkg.Length < bodySize { return bodySize; }
    CopyBytes(msg, from + HEAD, pkg, 0, bodySize);
    return bodySize + HEAD;
  }

  /** `memcpy`. */
  method CopyBytes(src: array<byte>, from: nat, dst: array<byte>, at: nat, n: nat)
    requires src != dst && from + n <= src.Length && at + n <= dst.Length
    modifies dst
    ensures dst[..at] == old(dst[..at]) && dst[at..at + n] == src[from..from + n] && dst[at + n..] == old(dst[at + n..])
  {
    for i := 0 to n
      invariant dst[..at] == old(dst[..at]) && dst[at..at + i] == src[from..from + i]
      invariant dst[at + n..] == old(dst[at + n..])
    {
      dst[at + i] := src[from + i];
      assert dst[at..at + i + 1] == dst[at..at + i] + [dst[at + i]];
    }
  }

  // ---------------------------------------------------------------- streams

  /** The stream starts with a whole frame. */
  predicate Whole(s: seq<byte>) { HEAD <= |s| && HEAD + BodySize(s) <= |s| }

  /** The bodies that `Unpack` yields when it is called again and again, each time after
      advancing by what it returned, and what is left then. */
  function Decode(s: seq<byte>): seq<seq<byte>>
    decreases |s|
  {
    if !Whole(s) then [] else [s[HEAD..HEAD + BodySize(s)]] + Decode(s[HEAD + BodySize(s)..])
  }

  /** A reader with room for the longest body. */
  method UnpackAll(stream: array<byte>) returns (ms: seq<seq<byte>>)
    ensures ms == Decode(stream[..])
  {
    hide Decode, BodySize;
    var pkg := new byte[LIMIT - 1];
    ms := [];
    var from := 0;
    assert stream[0..] == stream[..];
    while Whole(stream[from..])
      invariant from <= stream.Length && fresh(pkg) && pkg.Length == LIMIT - 1
      invariant ms + Decode(stream[from..]) == Decode(stream[..])
      decreases stream.Length - from
    {
      ghost var s := stream[from..];
      BodyBound(s);
      FirstBody(s);
      var ret := Unpack(stream, from, pkg);
      var body := pkg[..ret - HEAD];
      assert s[HEAD..ret] == stream[from + HEAD..from + ret] && s[ret..] == stream[from + ret..];
      assert ms + ([body] + Decode(s[ret..])) == (ms + [body]) + Decode(s[ret..]);
      ms := ms + [body];
      from := from + ret;
    }
    NoBody(stream[from..]);
    assert ms + [] == ms;
  }

  lemma BodyBound(s: seq<byte>)
    requires HEAD <= |s|
    ensures BodySize(s) < LIMIT
  {
  }

  lemma NoBody(s: seq<byte>)
    requires !Whole(s)
    ensures Decode(s) == []
  {
  }

  function Rest(s: seq<byte>): seq<byte>
    decreases |s|
  {
    if !Whole(s) then s else Rest(s[HEAD + BodySize(s)..])
  }

  function Encode(ms: seq<seq<byte>>): seq<byte> {
    if ms == [] then [] else Frame(ms[0]) + Encode(ms[1..])
  }

  lemma HeaderSays(m: seq<byte>, rest: seq<byte>)
    ensures BodySize(Frame(m) + rest) == |m| % LIMIT
  {
    var h := Header(|m|);
    assert (Frame(m) + rest)[0] == h[0] && (Frame(m) + rest)[1] == h[1];
    TwoBytes(|m|);
  }

  /** The low byte of the length comes first. */
  lemma LowByteFirst(m: seq<byte>)
    requires |m| < 256
    ensures Frame(m)[0] as int == |m| && Frame(m)[1] == 0 && Frame(m)[HEAD..] == m
  {
  }

  lemma TwoBytes(n: nat)
    ensures n % 256 + 256 * (n / 256 % 256) == n % LIMIT
  {
    var q := n / 256;
    assert n == LIMIT * (q / 256) + 256 * (q % 256) + n % 256;
  }

  /** A stream that arrives in two parts decodes as it would in one. */
  lemma {:induction false} DecodeSplits(a: seq<byte>, b: seq<byte>)
    ensures Decode(a + b) == Decode(a) + Decode(Rest(a) + b)
    ensures Rest(a + b) == Rest(Rest(a) + b)
    decreases |a|
  {
    if Whole(a) {
      var n := HEAD + BodySize(a);
      assert (a + b)[n..] == a[n..] + b;
      assert (a + b)[HEAD..n] == a[HEAD..n];
      DecodeSplits(a[n..], b);
      FirstBody(a + b);
      FirstBody(a);
    } else {
      assert [] + Decode(a + b) == Decode(a + b);
    }
  }

  lemma FirstBody(s: seq<byte>)
    requires Whole(s)
    ensures var n := HEAD + BodySize(s); Decode(s) == [s[HEAD..n]] + Decode(s[n..]) && Rest(s) == Rest(s[n..])
  {
  }

  /** A frame of a message below the limit decodes to it. */
  lemma DecodesFrame(m: seq<byte>, rest: seq<byte>)
    requires |m| < LIMIT
    ensures Decode(Frame(m) + rest) == [m] + Decode(rest) && Rest(Frame(m) + rest) == Rest(rest)
  {
    var s := Frame(m) + rest;
    HeaderSays(m, rest);
    assert s[HEAD..HEAD + |m|] == m && s[HEAD + |m|..] == rest;
    FirstBody(s);
  }

  /** A longer one never does: its length is cut to 16 bits. */
  lemma DecodesOther(m: seq<byte>, rest: seq<byte>)
    requires LIMIT <= |m|
    ensures var d := Decode(Frame(m) + rest); d != [] && d[0] == m[..|m| % LIMIT] && d[0] != m
  {
    var s, n := Frame(m) + rest, |m| % LIMIT;
    HeaderSays(m, rest);
    assert s[HEAD..HEAD + n] == m[..n];
    FirstBody(s);
  }

  /** Packing a list of messages and unpacking the stream gives the list back if and only if
      every message is below the limit. */
  lemma {:induction false} RoundTripIff(ms: seq<seq<byte>>)
    ensures Decode(Encode(ms)) == ms <==> forall m | m in ms :: |m| < LIMIT
    ensures (forall m | m in ms :: |m| < LIMIT) ==> Rest(Encode(ms)) == []
  {
    if ms != [] {
      var m, rest := ms[0], ms[1..];
      assert ms == [m] + rest;
      RoundTripIff(rest);
      if |m| < LIMIT {
        DecodesFrame(m, Encode(rest));
        SameTail(m, Decode(Encode(rest)), rest);
        assert forall x :: x in ms <==> x == m || x in rest;
      } else {
        DecodesOther(m, Encode(rest));
        assert m in ms;
      }
    }
  }

  lemma SameTail(m: seq<byte>, a: seq<seq<byte>>, b: seq<seq<byte>>)
    ensures [m] + a == [m] + b <==> a == b
  {
    assert ([m] + a)[1..] == a && ([m] + b)[1..] == b;
  }

  // ---------------------------------------------------------------- chunks

  function Concat(chunks: seq<seq<byte>>): seq<byte> {
    if chunks == [] then [] else chunks[0] + Concat(chunks[1..])
  }

  /** A reader that unpacks what it can after each chunk and keeps the rest. */
  function Feed(pending: seq<byte>, chunks: seq<seq<byte>>): seq<seq<byte>>
    decreases |chunks|
  {
    if chunks == [] then []
    else Decode(pending + chunks[0]) + Feed(Rest(pending + chunks[0]), chunks[1..])
  }

  lemma {:induction false} FeedDecodes(pending: seq<byte>, chunks: seq<seq<byte>>)
    requires !Whole(pending)
    ensures Feed(pending, chunks) == Decode(pending + Concat(chunks))
    decreases |chunks|
  {
    if chunks == [] {
      assert pending + [] == pending;
    } else {
      var s, more := pending + chunks[0], Concat(chunks[1..]);
      RestNotWhole(s);
      FeedDecodes(Rest(s), chunks[1..]);
      DecodeSplits(s, more);
      assert pending + (chunks[0] + more) == s + more;
    }
  }

  lemma {:induction false} RestNotWhole(s: seq<byte>)
    ensures !Whole(Rest(s))
    decreases |s|
  {
    if Whole(s) { RestNotWhole(s[HEAD + BodySize(s)..]); }
  }

  /** However the packed stream is cut into chunks on its way, the reader gets the messages. */
  lemma ChunksDeliver(ms: seq<seq<byte>>, chunks: seq<seq<byte>>)
    requires Concat(chunks) == Encode(ms) && forall m | m in ms :: |m| < LIMIT
    ensures Feed([], chunks) == ms
  {
    RoundTripIff(ms);
    FeedDecodes([], chunks);
    assert [] + Concat(chunks) == Concat(chunks);
  }
}
