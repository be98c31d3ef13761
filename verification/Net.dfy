/** Connections as the programs see them: recv hands out what has arrived in pieces of its own
  * choice; numbers travel as little-endian bytes. */
module Net {
  import opened Wrappers
  import opened Files

  /** The n least significant bytes of a number. */
  function ToBytes(x: nat, n: nat): (s: seq<byte>)
    ensures |s| == n
  {
    if n == 0 then [] else [x % 256] + ToBytes(x / 256, n - 1)
  }

  function FromBytes(s: seq<byte>): nat {
    if s == [] then 0 else s[0] + 256 * FromBytes(s[1..])
  }

  function Power256(n: nat): nat {
    if n == 0 then 1 else 256 * Power256(n - 1)
  }

  /** A number that fits n bytes is read back. */
  lemma {:induction false} BytesRoundTrip(x: nat, n: nat)
    requires x < Power256(n)
    ensures FromBytes(ToBytes(x, n)) == x
  {
    if n > 0 {
      BytesRoundTrip(x / 256, n - 1);
      assert ToBytes(x, n)[1..] == ToBytes(x / 256, n - 1);
    }
  }

  /** Four bytes of memory that hold an int. */
  type Word = w: seq<byte> | |w| == 4 witness [0, 0, 0, 0]

  /** What an int variable holds after one recv into it: the bytes that came, in front of what
    * was there before. */
  function Arrived(before: Word, s: seq<byte>): Word {
    if |s| < 4 then s + before[|s|..] else s[..4]
  }

  /** The first bytes are those that came, the others those that were there. */
  lemma ArrivedByte(before: Word, s: seq<byte>, k: nat)
    requires k < 4
    ensures Arrived(before, s)[k] == if k < |s| then s[k] else before[k]
  {
  }

  /** What is left of a stream after n of its bytes, or all of them. */
  function After(s: seq<byte>, n: nat): seq<byte> {
    if |s| < n then [] else s[n..]
  }

  /** One direction of a connection: the bytes still to come before it ends or breaks. */
  class Socket {
    var pending: seq<byte>

    constructor (stream: seq<byte>)
      ensures pending == stream
    {
      pending := stream;
    }

    /** recv: some of the bytes asked for; none only when the connection is over. */
    method Recv(max: nat) returns (chunk: seq<byte>)
      requires 0 < max
      modifies this
      ensures |chunk| <= max && chunk + pending == old(pending)
      ensures chunk == [] <==> old(pending) == []
    {
      if pending == [] { return []; }
      var k: nat :| 1 <= k <= max && k <= |pending|;
      chunk := pending[..k];
      pending := pending[k..];
    }

    /** One recv into an int: an int that was sent whole comes whole, fewer bytes come only when
      * the connection ends behind them. */
    method RecvInt(before: Word) returns (n: nat, word: Word)
      modifies this
      ensures n == 0 <==> old(pending) == []
      ensures word == Arrived(before, old(pending)) && pending == After(old(pending), 4)
      ensures forall k :: 0 <= k < 4 ==> word[k] == if k < |old(pending)| then old(pending)[k] else before[k]
    {
      n := if |pending| < 4 then |pending| else 4;
      word := pending[..n] + before[n..];
      pending := pending[n..];
    }

    /** The receive loops: n bytes, in however many portions they come. */
    method RecvAll(n: nat) returns (buf: Option<seq<byte>>)
      modifies this
      ensures n <= |old(pending)| ==> buf == Some(old(pending)[..n]) && pending == old(pending)[n..]
      ensures n > |old(pending)| ==> buf == None && pending == []
    {
      var got: seq<byte> := [];
      while |got| < n
        invariant |got| <= n && got + pending == old(pending)
        decreases n - |got|
      {
        var chunk := Recv(n - |got|);
        if chunk == [] { return None; }
        got := got + chunk;
      }
      buf := Some(got);
    }
  }
}
