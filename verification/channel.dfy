/**
 * A WebSocket connection (`ws`) as the server uses it: its ready state, the
 * frames the server has sent on it, and the code it was closed with.
 */
module Transport {
  import opened Wrappers
  import opened Records

  class Channel {
    /** `readyState === WebSocket.OPEN`. */
    var open: bool
    /** The frames sent to the peer, oldest first (each the JSON of a record). */
    var outbox: seq<Record>
    /** The code passed to `close`, if the server closed the socket. */
    var closeCode: Option<int>

    /** A freshly accepted connection. */
    constructor Accept()
      ensures open && outbox == [] && closeCode == None
    {
      open, outbox, closeCode := true, [], None;
    }

    /** `ws.send(data)`: on an open socket the frame goes out; on one that is
        closing or closed the data is discarded without an exception. */
    method Send(r: Record)
      modifies this
      ensures open == old(open) && closeCode == old(closeCode)
      ensures outbox == if old(open) then old(outbox) + [r] else old(outbox)
    {
      if open {
        outbox := outbox + [r];
      }
    }

    /** The connection has closed, from either side: the ready state leaves
        `OPEN`, and the close code the server passed, if any, is kept. */
    method Closed()
      modifies this
      ensures !open && outbox == old(outbox) && closeCode == old(closeCode)
    {
      open := false;
    }

    /** `ws.close(code, reason)`: starts the closing handshake; a second close is ignored. */
    method Close(code: int)
      modifies this
      ensures !open && outbox == old(outbox)
      ensures closeCode == if old(open) then Some(code) else old(closeCode)
    {
      if open {
        closeCode := Some(code);
      }
      open := false;
    }
  }
}
