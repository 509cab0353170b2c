/** Byte sources whose reads may be cut anywhere. */
module Sockets {
  import opened Bytes

  /** The receiving end of a byte pipe: `incoming` is everything still to arrive before end-of-file. */
  class Socket {
    var incoming: seq<Byte>

    constructor (bytes: seq<Byte>)
      ensures incoming == bytes
    {
      incoming := bytes;
    }

    /** One `read`: some bytes, as many as the network pleases; none only at end-of-file. */
    method Read(room: nat) returns (b: seq<Byte>)
      modifies this
      ensures |b| <= room && b + incoming == old(incoming)
      ensures room > 0 && old(incoming) != [] ==> b != []
    {
      if room == 0 || incoming == [] {
        b := [];
      } else {
        var k: nat :| 1 <= k <= room && k <= |incoming|;
        b := incoming[..k];
        incoming := incoming[k..];
      }
    }

    /** `read_exact`: all `n` bytes or failure. */
    method ReadExact(n: nat) returns (r: Option<seq<Byte>>)
      modifies this
      ensures r.Some? <==> n <= |old(incoming)|
      ensures r.Some? ==> r.value == old(incoming)[..n] && incoming == old(incoming)[n..]
    {
      var acc: seq<Byte> := [];
      while |acc| < n
        invariant |acc| <= n && acc + incoming == old(incoming)
        decreases n - |acc|
      {
        var b := Read(n - |acc|);
        if b == [] {
          return None;
        }
        acc := acc + b;
      }
      assert old(incoming)[..n] == acc;
      return Some(acc);
    }
  }
}
