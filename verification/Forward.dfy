/** Writing into a forwarded socket (`ForwardService::write_input` in src/forward.rs). */
module Forward {
  import opened Basics
  import opened Protocol

  /** A connected socket that takes `capacity` more bytes before writes to it fail, a few at a time. */
  class Socket {
    var received: seq<byte>
    var capacity: nat

    constructor (capacity: nat)
      ensures received == [] && this.capacity == capacity
    {
      received, this.capacity := [], capacity;
    }

    /** `write(2)`: takes at least one byte and perhaps not all of them, or fails. */
    method Write(data: seq<byte>) returns (n: Option<nat>)
      requires data != []
      modifies this
      ensures n.None? <==> old(capacity) == 0
      ensures n.None? ==> received == old(received) && capacity == old(capacity)
      ensures n.Some? ==> && 1 <= n.value <= |data| && n.value <= old(capacity)
                          && received == old(received) + data[..n.value]
                          && capacity == old(capacity) - n.value
    {
      if capacity == 0 {
        return None;
      }
      var k: nat :| 1 <= k <= |data| && k <= capacity by {
        assert 1 <= 1 <= |data| && 1 <= capacity;
      }
      received, capacity := received + data[..k], capacity - k;
      return Some(k);
    }
  }

  class ForwardService {
    const socket: Socket

    constructor (socket: Socket)
      ensures this.socket == socket
    {
      this.socket := socket;
    }

    /** Whatever the short writes, the socket ends with all of the payload behind what it had, or
        the call fails and the socket has the longest prefix it could take. */
    method WriteInput(data: seq<byte>) returns (ok: bool)
      modifies socket
      ensures var n := Accepted(data, FailsAfter(old(socket.capacity)));
              && ok == (n == |data|)
              && socket.received == old(socket.received) + data[..n]
              && socket.capacity == old(socket.capacity) - n
    {
      var written: nat := 0;
      while written < |data|
        invariant written <= |data| && written <= old(socket.capacity)
        invariant socket.received == old(socket.received) + data[..written]
        invariant socket.capacity == old(socket.capacity) - written
      {
        ghost var before := socket.received;
        var n := socket.Write(data[written..]);
        if n.None? {
          return false;
        }
        assert data[..written] + data[written..][..n.value] == data[..written + n.value];
        assert before == old(socket.received) + data[..written];
        written := written + n.value;
      }
      return true;
    }
  }
}
