/**
 CSSLClient's record buffering: a sliding window of ciphertext and a stash of left-over plaintext,
 which together must hand the caller one lossless byte stream.

 Schannel and the socket are foreign code. They appear as two classes whose methods promise only what
 their documentation does; what they choose to do is driven by a script.
 */
module TlsStream {
  import opened Wrappers

  const MAX_MSG_SIZE := 16000
  const MAX_EXTRA_SIZE := 50
  const READ_BUFFER_SIZE := (MAX_MSG_SIZE + MAX_EXTRA_SIZE) * 2
  const PLAIN_TEXT_SIZE := MAX_MSG_SIZE * 2

  const SOCKET_ERROR := -1

  /** What the peer sent: data records, an end-of-session alert, or bytes that do not decrypt. */
  datatype Record =
    | Data(cipher: bytes, header: nat, plain: bytes)
    | CloseNotify(cipher: bytes)
    | Corrupt(cipher: bytes)

  /** Plaintext is decrypted in place, behind the record's header, and fits the stash. */
  predicate ValidRecord(r: Record) {
    && 0 < |r.cipher|
    && (r.Data? ==> r.header + |r.plain| <= |r.cipher| && |r.plain| <= 32000)
  }

  predicate ValidRecords(rs: seq<Record>) {
    forall i :: 0 <= i < |rs| ==> ValidRecord(rs[i])
  }

  function Ciphers(rs: seq<Record>): bytes {
    if rs == [] then [] else rs[0].cipher + Ciphers(rs[1..])
  }

  /** The plaintext the records carry, up to the first one that ends the stream. */
  function Plains(rs: seq<Record>): bytes {
    if rs == [] || !rs[0].Data? then [] else rs[0].plain + Plains(rs[1..])
  }

  // ---------------------------------------------------------------- foreign code

  datatype NetEvent = Deliver(most: nat) | Fail(code: int) | EndOfStream

  /** The socket: delivers the wire in pieces of its own choosing. */
  class Socket {
    var wire: bytes
    var script: seq<NetEvent>
    var lastError: int
    var failures: nat   // how many calls have failed
    var ended: bool     // a call has reported the end of the stream

    constructor (wire: bytes, script: seq<NetEvent>)
      ensures this.wire == wire && this.script == script && !ended
    {
      this.wire, this.script, lastError, failures, ended := wire, script, 0, 0, false;
    }

    /** Between 1 and max bytes, 0 when the peer has closed, or SOCKET_ERROR. */
    method Recv(buf: array<byte>, at: nat, max: nat) returns (r: int)
      requires max > 0 && at + max <= buf.Length
      modifies this, buf
      ensures r == SOCKET_ERROR || 0 <= r <= max
      ensures r <= 0 ==> wire == old(wire) && buf[..] == old(buf[..])
      ensures r > 0 ==> r <= |old(wire)| && buf[at..at + r] == old(wire)[..r] && wire == old(wire)[r..]
      ensures r > 0 ==> buf[..at] == old(buf[..at]) && buf[at + r..] == old(buf[at + r..])
      ensures |script| <= |old(script)| && (r != SOCKET_ERROR ==> |script| < |old(script)|)
      ensures failures == old(failures) + (if r == SOCKET_ERROR then 1 else 0) && ended == (old(ended) || r == 0)
    {
      if script == [] {
        lastError, failures := 0, failures + 1;
        return SOCKET_ERROR;
      }
      var e := script[0];
      script := script[1..];
      match e
      case Fail(code) =>
        lastError, failures := code, failures + 1;
        r := SOCKET_ERROR;
      case EndOfStream =>
        ended := true;
        r := 0;
      case Deliver(most) =>
        var n := if most < max then most else max;
        n := if n < |wire| then n else |wire|;
        if n == 0 {
          lastError, failures := 0, failures + 1;
          return SOCKET_ERROR;
        }
        forall i | 0 <= i < n { buf[at + i] := wire[i]; }
        wire := wire[n..];
        r := n;
    }
  }

  datatype Status = OkStatus | Incomplete | ContextExpired | DecryptError

  /** The security context: knows the records the peer sealed that have not been decrypted yet. */
  class Schannel {
    var records: seq<Record>

    constructor (records: seq<Record>)
      ensures this.records == records
    {
      this.records := records;
    }

    /**
     DecryptMessage on buf[at..at + n]. The data buffer is at dataAt, dataLen long; when more than one
     record was given, the extra buffer is the last `extra` bytes of the input.
     */
    method DecryptMessage(buf: array<byte>, at: nat, n: nat)
        returns (status: Status, dataAt: nat, dataLen: nat, extra: nat)
      requires 0 < n && at + n <= buf.Length
      requires ValidRecords(records) && buf[at..at + n] <= Ciphers(records)
      modifies this, buf
      ensures |old(records)| > 0
      ensures var r := old(records)[0];
              status == if n < |r.cipher| then Incomplete
                        else match r case Data(_, _, _) => OkStatus case CloseNotify(_) => ContextExpired case Corrupt(_) => DecryptError
      ensures status != OkStatus ==> records == old(records) && buf[..] == old(buf[..])
      ensures status == OkStatus ==>
        var r := old(records)[0];
        && records == old(records)[1..]
        && dataLen == |r.plain| && dataAt + dataLen <= at + |r.cipher|
        && buf[dataAt..dataAt + dataLen] == r.plain
        && extra == n - |r.cipher| && buf[at + |r.cipher|..at + n] == old(buf[at..at + n])[|r.cipher|..]
    {
      assert buf[at] == Ciphers(records)[0] by {
        assert buf[at..at + n][0] == buf[at];
      }
      var r := records[0];
      dataAt, dataLen, extra := 0, 0, 0;
      if n < |r.cipher| {
        status := Incomplete;
      } else if r.CloseNotify? {
        status := ContextExpired;
      } else if r.Corrupt? {
        status := DecryptError;
      } else {
        status, dataAt, dataLen, extra := OkStatus, at + r.header, |r.plain|, n - |r.cipher|;
        forall i | 0 <= i < dataLen { buf[dataAt + i] := r.plain[i]; }
        records := records[1..];
      }
    }
  }

  // ---------------------------------------------------------------- CSSLClient

  class SslClient {
    const socket: Socket
    const context: Schannel
    const readBuffer: array<byte>
    const plainText: array<byte>
    var readPtr: nat           // offset of readPtr in readBuffer
    var readBufferBytes: nat
    var plainTextPtr: nat      // offset of plainTextPtr in plainText
    var plainTextBytes: nat
    var encrypting: bool       // m_encrypting

    ghost const Repr: set<object> := {this, socket, context, readBuffer, plainText}

    /** All offsets stay inside their buffers; the window and the wire are the ciphertext still to be decrypted. */
    ghost predicate Valid()
      reads Repr
    {
      && readBuffer.Length == READ_BUFFER_SIZE && plainText.Length == PLAIN_TEXT_SIZE && readBuffer != plainText
      && readPtr + readBufferBytes <= READ_BUFFER_SIZE
      && (plainTextBytes > 0 ==> plainTextPtr + plainTextBytes <= PLAIN_TEXT_SIZE)
      && ValidRecords(context.records)
      && (encrypting ==> Window() + socket.wire == Ciphers(context.records))
    }

    ghost function Window(): bytes
      reads `readPtr, `readBufferBytes, readBuffer
      requires readPtr + readBufferBytes <= readBuffer.Length
    {
      readBuffer[readPtr..readPtr + readBufferBytes]
    }

    ghost function Stash(): bytes
      reads `plainTextPtr, `plainTextBytes, plainText
      requires plainTextBytes > 0 ==> plainTextPtr + plainTextBytes <= plainText.Length
    {
      if plainTextBytes == 0 then [] else plainText[plainTextPtr..plainTextPtr + plainTextBytes]
    }

    /** Everything the peer has sent that has not been returned to the caller. */
    ghost function Pending(): bytes
      reads Repr
      requires Valid()
    {
      Stash() + Plains(context.records)
    }

    /** A whole record is in the window already. */
    ghost predicate Buffered()
      reads `encrypting, `readBufferBytes, context
    {
      encrypting && context.records != [] && readBufferBytes >= |context.records[0].cipher|
    }

    /** Why a read fails: the socket has failed, or the next record does not decrypt, or it is too long. */
    ghost predicate Stopped(before: seq<Record>, failures: nat)
      reads socket
    {
      socket.failures > failures || FirstIs(before, false) || TooLong(before)
    }

    /** How a session ends: the socket has reached its end, or the next record is the close alert. */
    ghost predicate Ended(before: seq<Record>)
      reads socket, context
    {
      context.records == before && (socket.ended || FirstIs(before, true))
    }

    /** A client whose handshake is over; `early` is application data that arrived with the handshake. */
    constructor (wire: bytes, script: seq<NetEvent>, records: seq<Record>, early: bytes)
      requires ValidRecords(records) && early + wire == Ciphers(records) && |early| <= READ_BUFFER_SIZE
      ensures Valid() && fresh(Repr) && Pending() == Plains(records) && encrypting && !socket.ended
      ensures plainTextBytes == 0 && readBufferBytes == |early| && context.records == records
    {
      socket := new Socket(wire, script);
      context := new Schannel(records);
      readBuffer := new byte[READ_BUFFER_SIZE](i => if 0 <= i < |early| then early[i] else 0);
      plainText := new byte[PLAIN_TEXT_SIZE](_ => 0);
      readPtr, readBufferBytes, plainTextPtr, plainTextBytes, encrypting := 0, |early|, 0, 0, true;
      new;
      assert Window() == early;
    }

    /** Recv: the stash first, then one record. */
    method Recv(lpBuf: array<byte>, len: nat) returns (r: int)
      requires Valid() && len <= lpBuf.Length && lpBuf !in Repr
      modifies this, socket, context, readBuffer, plainText, lpBuf
      ensures Valid()
      ensures r == SOCKET_ERROR || 0 <= r <= len
      ensures lpBuf[..if r > 0 then r else 0] + Pending() == old(Pending())
      ensures old(plainTextBytes) > 0 ==> r == if len < old(plainTextBytes) then len else old(plainTextBytes)
      ensures old(plainTextBytes) == 0 && r >= 0 && encrypting ==> OneRecord(old(context.records), context.records, len, r)
      ensures |socket.script| <= |old(socket.script)|
      ensures r == SOCKET_ERROR ==> !old(encrypting) || Stopped(old(context.records), old(socket.failures))
      ensures old(plainTextBytes) == 0 && r >= 0 && !encrypting ==> r == 0 && Ended(old(context.records))
      ensures old(plainTextBytes) == 0 && old(Buffered()) && old(context.records)[0].Data? ==>
                OneRecord(old(context.records), context.records, len, r) && encrypting && socket.ended == old(socket.ended)
      ensures old(plainTextBytes) > 0 ==> encrypting == old(encrypting) && context.records == old(context.records)
    {
      if plainTextBytes > 0 {
        r := TakeStash(lpBuf, len);
        Regroup(lpBuf[..r], Stash(), Plains(context.records));
        return;
      }
      if encrypting {
        r := RecvPartialEncrypted(lpBuf, len);
      } else {
        r := SOCKET_ERROR;
      }
    }

    /** What Recv does with plaintext that was left over. */
    method TakeStash(lpBuf: array<byte>, len: nat) returns (r: nat)
      requires plainText.Length == PLAIN_TEXT_SIZE && 0 < plainTextBytes && plainTextPtr + plainTextBytes <= PLAIN_TEXT_SIZE
      requires len <= lpBuf.Length && lpBuf !in Repr
      modifies this`plainTextPtr, this`plainTextBytes, lpBuf
      ensures r == if len < old(plainTextBytes) then len else old(plainTextBytes)
      ensures plainTextBytes > 0 ==> plainTextPtr + plainTextBytes <= PLAIN_TEXT_SIZE
      ensures lpBuf[..r] + Stash() == old(Stash())
    {
      ghost var stash := Stash();
      if len >= plainTextBytes {
        r := plainTextBytes;
        forall i | 0 <= i < plainTextBytes { lpBuf[i] := plainText[plainTextPtr + i]; }
        plainTextBytes := 0;
        assert lpBuf[..r] == stash;
      } else {
        forall i | 0 <= i < len { lpBuf[i] := plainText[plainTextPtr + i]; }
        plainTextPtr := plainTextPtr + len;
        plainTextBytes := plainTextBytes - len;
        r := len;
      }
    }

    /** What is known once DecryptMessage has stopped asking for more. */
    ghost predicate Decrypted(before: seq<Record>, status: Status, dataAt: nat, dataLen: nat, extra: nat)
      reads Repr
    {
      && before != [] && status != Incomplete
      && readPtr + readBufferBytes <= readBuffer.Length
      && (status == ContextExpired <==> before[0].CloseNotify?)
      && (status == OkStatus <==> before[0].Data?)
      && (status != OkStatus ==> Valid() && context.records == before)
      && (status == OkStatus ==>
            && context.records == before[1..]
            && dataLen == |before[0].plain| && extra <= readBufferBytes
            && dataAt + dataLen <= readPtr + readBufferBytes - extra
            && readBuffer[dataAt..dataAt + dataLen] == before[0].plain
            && readBuffer[readPtr + readBufferBytes - extra..readPtr + readBufferBytes] + socket.wire == Ciphers(context.records))
    }

    /** One call of DecryptMessage on the whole window. */
    method DecryptWindow() returns (status: Status, dataAt: nat, dataLen: nat, extra: nat)
      requires Valid() && encrypting && readBufferBytes > 0
      modifies context, readBuffer
      ensures readPtr + readBufferBytes <= READ_BUFFER_SIZE
      ensures status == Incomplete ==> Valid() && context.records == old(context.records) && context.records != []
      ensures status == Incomplete ==> readBufferBytes < |context.records[0].cipher|
      ensures status != Incomplete ==> Decrypted(old(context.records), status, dataAt, dataLen, extra)
    {
      ghost var records, window := context.records, Window();
      assert window <= Ciphers(records);
      status, dataAt, dataLen, extra := context.DecryptMessage(readBuffer, readPtr, readBufferBytes);
      if status == OkStatus {
        AfterRecord(window, socket.wire, records);
      }
    }

    /** Moves the window down when there is no room behind it; a full window leaves no room at all. */
    method MakeRoom() returns (freeAtEnd: nat)
      requires readBuffer.Length == READ_BUFFER_SIZE && readPtr + readBufferBytes <= READ_BUFFER_SIZE
      modifies this`readPtr, readBuffer
      ensures readPtr + readBufferBytes + freeAtEnd == READ_BUFFER_SIZE
      ensures freeAtEnd == 0 <==> readBufferBytes == READ_BUFFER_SIZE
      ensures Window() == old(Window())
      ensures if old(readPtr) + readBufferBytes < READ_BUFFER_SIZE then readPtr == old(readPtr) && readBuffer[..] == old(readBuffer[..])
              else readPtr == 0
    {
      var freeAtStart := readPtr;
      freeAtEnd := READ_BUFFER_SIZE - readBufferBytes - freeAtStart;
      if freeAtEnd == 0 && freeAtStart > 0 {
        forall i | 0 <= i < READ_BUFFER_SIZE - freeAtStart { readBuffer[i] := readBuffer[freeAtStart + i]; }
        freeAtEnd := freeAtStart;
        readPtr := 0;
        assert Window() == old(Window());
      }
    }

    /** One receive into the place behind the window. */
    method ReceiveBehind(freeAtEnd: nat) returns (err: int)
      requires readBuffer.Length == READ_BUFFER_SIZE && readPtr + readBufferBytes + freeAtEnd == READ_BUFFER_SIZE && freeAtEnd > 0
      modifies this`readBufferBytes, socket, readBuffer
      ensures readPtr + readBufferBytes <= READ_BUFFER_SIZE
      ensures err == SOCKET_ERROR || 0 <= err
      ensures err <= 0 ==> Window() == old(Window()) && socket.wire == old(socket.wire)
      ensures err > 0 ==> readBufferBytes == old(readBufferBytes) + err && err <= |old(socket.wire)|
      ensures err > 0 ==> Window() == old(Window()) + old(socket.wire)[..err] && socket.wire == old(socket.wire)[err..]
      ensures |socket.script| <= |old(socket.script)| && (err > 0 ==> |socket.script| < |old(socket.script)|)
      ensures socket.failures == old(socket.failures) + (if err == SOCKET_ERROR then 1 else 0)
      ensures socket.ended == (old(socket.ended) || err == 0)
    {
      ghost var window := Window();
      var at := readPtr + readBufferBytes;
      ghost var before := readBuffer[..at];
      err := socket.Recv(readBuffer, at, freeAtEnd);
      assert readBuffer[..at] == before;
      assert readBuffer[readPtr..at] == before[readPtr..] == window;
      if err > 0 {
        readBufferBytes := readBufferBytes + err;
        assert readBuffer[readPtr..at + err] == readBuffer[readPtr..at] + readBuffer[at..at + err];
      }
    }

    /** The body of the loop up to the decryption: makes room at the end of the window and receives into it. */
    method ReceiveMore() returns (err: int)
      requires Valid() && encrypting
      requires context.records == [] || readBufferBytes < |context.records[0].cipher|
      modifies this`readPtr, this`readBufferBytes, this`encrypting, socket, readBuffer
      ensures Valid() && |socket.script| <= |old(socket.script)|
      ensures err > 0 ==> encrypting && readBufferBytes > 0 && |socket.script| < |old(socket.script)|
      ensures err <= 0 ==> err == SOCKET_ERROR || (err == 0 && !encrypting)
      ensures err <= |old(socket.wire)| && Window() == old(Window()) + old(socket.wire)[..if err > 0 then err else 0]
      ensures old(readBufferBytes) == READ_BUFFER_SIZE ==> err == SOCKET_ERROR && socket.script == old(socket.script)
      ensures socket.failures >= old(socket.failures)
      ensures err == SOCKET_ERROR ==> socket.failures > old(socket.failures) || TooLong(context.records)
      ensures socket.ended == (old(socket.ended) || err == 0)
    {
      ghost var window, wire := Window(), socket.wire;
      assert context.records == [] ==> window == [];
      var freeAtEnd := MakeRoom();
      if freeAtEnd == 0 {
        return SOCKET_ERROR;
      }
      err := ReceiveBehind(freeAtEnd);
      if err == 0 {
        encrypting := false;
      } else if err > 0 {
        Regroup(window, wire[..err], wire[err..]);
        assert wire[..err] + wire[err..] == wire;
      }
    }

    /** The while loop of RecvPartialEncrypted: receives until the window holds a whole record. */
    method FillWindow() returns (result: int, status: Status, dataAt: nat, dataLen: nat, extra: nat)
      requires Valid() && encrypting
      requires context.records == [] || readBufferBytes < |context.records[0].cipher|
      modifies this`readPtr, this`readBufferBytes, this`encrypting, socket, context, readBuffer
      ensures |socket.script| <= |old(socket.script)|
      ensures status == Incomplete ==> Valid() && context.records == old(context.records)
      ensures status == Incomplete ==> result == SOCKET_ERROR || (result == 0 && !encrypting)
      ensures status != Incomplete ==> encrypting && Decrypted(old(context.records), status, dataAt, dataLen, extra)
      ensures socket.failures >= old(socket.failures)
      ensures status == Incomplete && result == SOCKET_ERROR ==> socket.failures > old(socket.failures) || TooLong(old(context.records))
      ensures socket.ended == (old(socket.ended) || (status == Incomplete && result == 0))
    {
      status, dataAt, dataLen, extra, result := Incomplete, 0, 0, 0, 1;
      while status == Incomplete
        invariant encrypting
        invariant status == Incomplete ==> Valid() && context.records == old(context.records)
        invariant status == Incomplete ==> context.records == [] || readBufferBytes < |context.records[0].cipher|
        invariant status != Incomplete ==> Decrypted(old(context.records), status, dataAt, dataLen, extra)
        invariant |socket.script| <= |old(socket.script)|
        invariant socket.failures >= old(socket.failures) && socket.ended == old(socket.ended)
        decreases |socket.script|, status == Incomplete
      {
        result := ReceiveMore();
        if result <= 0 { return; }
        status, dataAt, dataLen, extra := DecryptWindow();
      }
    }

    /** Decrypts the saved ciphertext, or receives until there is a whole record. */
    method NextRecord() returns (result: int, status: Status, dataAt: nat, dataLen: nat, extra: nat)
      requires Valid() && encrypting
      modifies this`readPtr, this`readBufferBytes, this`encrypting, socket, context, readBuffer
      ensures |socket.script| <= |old(socket.script)|
      ensures status == Incomplete ==> Valid() && context.records == old(context.records)
      ensures status == Incomplete ==> result == SOCKET_ERROR || (result == 0 && !encrypting)
      ensures status != Incomplete ==> encrypting && Decrypted(old(context.records), status, dataAt, dataLen, extra)
      ensures socket.failures >= old(socket.failures)
      ensures status == Incomplete && result == SOCKET_ERROR ==> socket.failures > old(socket.failures) || TooLong(old(context.records))
      ensures socket.ended == (old(socket.ended) || (status == Incomplete && result == 0))
      ensures old(Buffered()) ==> status != Incomplete && socket.wire == old(socket.wire)
    {
      status, dataAt, dataLen, extra, result := Incomplete, 0, 0, 0, 1;
      if readBufferBytes > 0 {
        status, dataAt, dataLen, extra := DecryptWindow();
      }
      if status == Incomplete {
        result, status, dataAt, dataLen, extra := FillWindow();
      }
    }

    /** Remembers where the extra ciphertext is for next time. */
    method KeepExtra(extra: nat)
      requires readBuffer.Length == READ_BUFFER_SIZE && extra <= readBufferBytes && readPtr + readBufferBytes <= READ_BUFFER_SIZE
      modifies this`readPtr, this`readBufferBytes
      ensures readPtr + readBufferBytes <= READ_BUFFER_SIZE
      ensures Window() == readBuffer[old(readPtr + readBufferBytes) - extra..old(readPtr + readBufferBytes)]
    {
      if extra > 0 {
        readPtr := readPtr + readBufferBytes - extra;
        readBufferBytes := extra;
      } else {
        readBufferBytes := 0;
        readPtr := 0;
        assert Window() == [];
      }
    }

    /** Receives and decrypts one record, returns what the caller has room for and stashes the rest. */
    method RecvPartialEncrypted(lpBuf: array<byte>, len: nat) returns (r: int)
      requires Valid() && encrypting && plainTextBytes == 0 && len <= lpBuf.Length && lpBuf !in Repr
      modifies this, socket, context, readBuffer, plainText, lpBuf
      ensures Valid()
      ensures r == SOCKET_ERROR || 0 <= r <= len
      ensures r > 0 ==> encrypting
      ensures lpBuf[..if r > 0 then r else 0] + Pending() == old(Pending())
      ensures r >= 0 && encrypting ==> OneRecord(old(context.records), context.records, len, r)
      ensures |socket.script| <= |old(socket.script)|
      ensures r == SOCKET_ERROR ==> Stopped(old(context.records), old(socket.failures))
      ensures r >= 0 && !encrypting ==> r == 0 && Ended(old(context.records))
      ensures old(Buffered()) && old(context.records)[0].Data? ==>
                OneRecord(old(context.records), context.records, len, r) && encrypting && socket.ended == old(socket.ended)
    {
      ghost var records := context.records;
      var result, status, dataAt, dataLen, extra := NextRecord();
      if status == Incomplete { return result; }
      if status == ContextExpired {
        encrypting := false;
        return 0;
      }
      if status == DecryptError { return SOCKET_ERROR; }
      r := ConsumeRecord(records, lpBuf, len, dataAt, dataLen, extra);
      ghost var rest := Plains(records[1..]);
      assert lpBuf[..r] + (Stash() + rest) == (lpBuf[..r] + Stash()) + rest;
    }

    /** The end of RecvPartialEncrypted: the decrypted record leaves the window. */
    method ConsumeRecord(ghost records: seq<Record>, lpBuf: array<byte>, len: nat, dataAt: nat, dataLen: nat, extra: nat)
        returns (r: nat)
      requires readBuffer.Length == READ_BUFFER_SIZE && plainText.Length == PLAIN_TEXT_SIZE && readBuffer != plainText
      requires Decrypted(records, OkStatus, dataAt, dataLen, extra) && ValidRecords(records)
      requires plainTextBytes == 0 && len <= lpBuf.Length && lpBuf !in Repr
      modifies this`readPtr, this`readBufferBytes, this`plainTextPtr, this`plainTextBytes, plainText, lpBuf
      ensures Valid() && context.records == records[1..]
      ensures r <= len && OneRecord(records, context.records, len, r)
      ensures lpBuf[..r] + Stash() == records[0].plain
    {
      ghost var end := readPtr + readBufferBytes;
      ghost var kept := readBuffer[end - extra..end];
      r := DeliverPlaintext(records[0].plain, lpBuf, len, dataAt, dataLen);
      KeepExtra(extra);
      assert Window() == kept;
    }

    /** Copies the decrypted bytes out, the overflow into the stash. */
    method DeliverPlaintext(ghost plain: bytes, lpBuf: array<byte>, len: nat, dataAt: nat, dataLen: nat) returns (r: int)
      requires readBuffer.Length == READ_BUFFER_SIZE && plainText.Length == PLAIN_TEXT_SIZE && readBuffer != plainText
      requires len <= lpBuf.Length && lpBuf !in Repr && plainTextBytes == 0
      requires dataAt + dataLen <= READ_BUFFER_SIZE && readBuffer[dataAt..dataAt + dataLen] == plain && dataLen <= PLAIN_TEXT_SIZE
      modifies this`plainTextPtr, this`plainTextBytes, plainText, lpBuf
      ensures r == if len < dataLen then len else dataLen
      ensures plainTextBytes > 0 ==> plainTextPtr + plainTextBytes <= PLAIN_TEXT_SIZE
      ensures lpBuf[..r] + Stash() == plain
    {
      if len >= dataLen {
        forall i | 0 <= i < dataLen { lpBuf[i] := readBuffer[dataAt + i]; }
        r := dataLen;
        assert lpBuf[..r] == plain;
      } else {
        forall i | 0 <= i < len { lpBuf[i] := readBuffer[dataAt + i]; }
        plainTextBytes := dataLen - len;
        plainTextPtr := 0;
        forall i | 0 <= i < plainTextBytes { plainText[i] := readBuffer[dataAt + len + i]; }
        r := len;
        assert lpBuf[..r] == plain[..len] && Stash() == plain[len..];
      }
    }
  }

  /**
   Whole runs. Any caller, with any buffer lengths, over any fragmentation and any interleaved errors:
   the bytes it collects are a prefix of the plaintext the peer sent, and what is missing is exactly
   what is still pending.
   */
  method ReceiveRun(client: SslClient, lens: seq<nat>) returns (got: bytes)
    requires client.Valid()
    modifies client.Repr
    ensures client.Valid()
    ensures got + client.Pending() == old(client.Pending())
  {
    got := [];
    ghost var all := client.Pending();
    assert [] + all == all;
    for i := 0 to |lens|
      invariant client.Valid() && got + client.Pending() == all
    {
      var lpBuf := new byte[lens[i]](_ => 0);
      ghost var pending := client.Pending();
      var received := client.Recv(lpBuf, lens[i]);
      if received > 0 {
        Regroup(got, lpBuf[..received], client.Pending());
        got := got + lpBuf[..received];
      } else {
        assert lpBuf[..0] == [] && [] + client.Pending() == client.Pending();
      }
    }
  }

  /** Only data records with something in them, up to the first record that ends the stream. */
  predicate NoneEmpty(records: seq<Record>) {
    records != [] && records[0].Data? ==> records[0].plain != [] && NoneEmpty(records[1..])
  }

  lemma AfterRecord(window: bytes, wire: bytes, records: seq<Record>)
    requires records != [] && window + wire == Ciphers(records) && |records[0].cipher| <= |window|
    ensures window[|records[0].cipher|..] + wire == Ciphers(records[1..])
  {
    var c := |records[0].cipher|;
    assert window[c..] + wire == (window + wire)[c..];
  }

  /** After a 0: the session is over, and unless the connection was closed under it, all of `all` was returned. */
  ghost predicate AtEnd(client: SslClient, got: bytes, all: bytes)
    reads client, client.socket, client.context
  {
    !client.encrypting && (client.socket.ended || (got == all && FirstIs(client.context.records, true)))
  }

  /** One call of Recv with room for something. */
  method ReadOnce(client: SslClient, len: nat) returns (got: bytes, last: int)
    requires client.Valid() && client.encrypting && len > 0
    modifies client.Repr
    ensures client.Valid() && |got| == if last > 0 then last else 0
    ensures got + client.Pending() == old(client.Pending())
    ensures last > 0 ==> client.encrypting && (old(NoneEmpty(client.context.records)) ==> NoneEmpty(client.context.records))
    ensures last == 0 && old(NoneEmpty(client.context.records)) ==> AtEnd(client, old(client.Pending()), old(client.Pending()))
    ensures last == 0 && old(NoneEmpty(client.context.records)) && !client.socket.ended ==> client.Pending() == []
  {
    var lpBuf := new byte[len](_ => 0);
    last := client.Recv(lpBuf, len);
    got := lpBuf[..if last > 0 then last else 0];
  }

  /**
   Reading as main.cpp does, until a call returns 0 or fails. When no record is empty, 0 means the end:
   either the peer has ended the session and all its plaintext has been returned, or the connection was
   closed under it.
   */
  method ReadToEnd(client: SslClient, len: nat) returns (got: bytes, last: int)
    requires client.Valid() && client.encrypting && len > 0
    modifies client.Repr
    ensures client.Valid() && last <= 0
    ensures got + client.Pending() == old(client.Pending())
    ensures last == 0 && old(NoneEmpty(client.context.records)) ==> AtEnd(client, got, old(client.Pending()))
  {
    got, last := [], 1;
    ghost var all := client.Pending();
    assert [] + all == all;
    while last > 0
      invariant client.Valid() && got + client.Pending() == all
      invariant last > 0 ==> client.encrypting && (old(NoneEmpty(client.context.records)) ==> NoneEmpty(client.context.records))
      invariant last == 0 && old(NoneEmpty(client.context.records)) ==> AtEnd(client, got, all)
      decreases |client.Pending()|, last
    {
      var more;
      more, last := ReadOnce(client, len);
      Regroup(got, more, client.Pending());
      got := got + more;
      assert client.Pending() == [] ==> got + [] == got;
    }
  }

  /** An empty record makes Recv return 0 though the session goes on and plaintext follows. */
  method EmptyRecordReadsAsEnd() returns (client: SslClient, last: int)
    ensures fresh(client.Repr) && client.Valid() && last == 0
    ensures client.encrypting && !client.socket.ended && client.Pending() == [65]
  {
    var records := [Data([0], 0, []), Data([1], 0, [65])];
    assert Ciphers(records) == [0, 1] + [] && Plains(records) == [65];
    client := new SslClient([], [], records, [0, 1]);
    var lpBuf := new byte[1](_ => 0);
    last := client.Recv(lpBuf, 1);
  }

  lemma Regroup(a: bytes, b: bytes, c: bytes)
    ensures a + b + c == a + (b + c)
  {
  }

  /** The next record ends the session: a close alert, or one that does not decrypt. */
  predicate FirstIs(records: seq<Record>, closing: bool) {
    records != [] && if closing then records[0].CloseNotify? else records[0].Corrupt?
  }

  /** The next record does not fit the read buffer. */
  predicate TooLong(records: seq<Record>) {
    records != [] && |records[0].cipher| > 32100
  }

  /** A successful read from the network consumes exactly one record, and returns 0 only for an empty one. */
  predicate OneRecord(before: seq<Record>, after: seq<Record>, len: nat, r: int) {
    && before != [] && before[0].Data? && after == before[1..]
    && r == if len < |before[0].plain| then len else |before[0].plain|
  }

  // ---------------------------------------------------------------- CSSLClient::Send

  /** CutShort: the socket has taken only a part of a record, a count that Send does not look at. */
  datatype SendResult = EncryptFailed | SocketFailed | CutShort | Sent

  function Cuts(outcomes: seq<SendResult>): nat {
    if outcomes == [] then 0 else Cuts(outcomes[..|outcomes| - 1]) + if outcomes[|outcomes| - 1].CutShort? then 1 else 0
  }

  lemma CutsOfNext(used: seq<SendResult>, outcomes: seq<SendResult>)
    requires used < outcomes
    ensures Cuts(outcomes[..|used| + 1]) == Cuts(used) + if outcomes[|used|].CutShort? then 1 else 0
  {
    assert outcomes[..|used| + 1][..|used|] == used;
  }

  /** The count stays the same over some calls exactly if the socket took all their records whole. */
  lemma {:induction false} NothingCut(script: seq<SendResult>, before: nat, after: nat)
    requires before <= after <= |script|
    ensures Cuts(script[..before]) <= Cuts(script[..after])
    ensures Cuts(script[..before]) == Cuts(script[..after]) <==> CutShort !in script[before..after]
    decreases after - before
  {
    if before < after {
      NothingCut(script, before, after - 1);
      CutsOfNext(script[..after - 1], script);
      assert script[before..after] == script[before..after - 1] + [script[after - 1]];
    }
  }

  /**
   The sending side: one record per call, or a loop over records. EncryptMessage and the socket answer
   from a script, and without fail when it is used up; `sealed` lists the plaintext of the records that
   went to the socket without an error, `cut` counts those of them that it did not take whole.
   */
  class Sender {
    const encrypting: bool
    const schannelMaximum: nat   // Sizes.cbMaximumMessage, 0 when Schannel gave none
    const script: seq<SendResult>
    var used: nat                // how many of the answers have been given
    var sealed: seq<bytes>
    var cut: nat

    predicate Valid()
      reads this
    {
      used <= |script| && cut == Cuts(script[..used])
    }

    constructor (encrypting: bool, schannelMaximum: nat, script: seq<SendResult>)
      ensures this.encrypting == encrypting && this.schannelMaximum == schannelMaximum && this.script == script
      ensures Valid() && used == 0 && sealed == [] && cut == 0
    {
      this.encrypting, this.schannelMaximum, this.script, used, sealed, cut := encrypting, schannelMaximum, script, 0, [], 0;
    }

    /** One record: 16000 octets, or the maximum of Schannel where that is less. */
    function MaxChunk(): (n: nat)
      ensures n <= 16000 && (schannelMaximum != 0 ==> n <= schannelMaximum)
      ensures n == 16000 || n == schannelMaximum != 0
    {
      var limit := if schannelMaximum != 0 then schannelMaximum else MAX_MSG_SIZE;
      if MAX_MSG_SIZE < limit then MAX_MSG_SIZE else limit
    }

    /** Send for at most one record. */
    method SendRecord(data: bytes) returns (r: int)
      requires Valid() && encrypting && |data| <= MaxChunk()
      modifies `used, `sealed, `cut
      ensures Valid() && used >= old(used)
      ensures r == SOCKET_ERROR || r == |data|
      ensures sealed == if r == SOCKET_ERROR then old(sealed) else old(sealed) + [data]
      ensures old(used) == |script| ==> r == |data| && used == |script|
    {
      var outcome := Sent;
      if used < |script| {
        outcome := script[used];
        CutsOfNext(script[..used], script);
        used := used + 1;
      }
      match outcome
      case EncryptFailed => r := SOCKET_ERROR;
      case SocketFailed => r := SOCKET_ERROR;
      case CutShort =>
        sealed := sealed + [data];
        cut := cut + 1;
        r := |data|;
      case Sent =>
        sealed := sealed + [data];
        r := |data|;
    }

    /**
     Send keeps the all-or-error contract: on success the records it added carry exactly the caller's
     octets, none longer than one record may be; on an error they carry a prefix of them. All of it has
     been taken by the socket exactly if `cut` is what it was. None stands for the null pointer.
     */
    method Send(buffer: Option<bytes>) returns (r: int)
      requires Valid()
      modifies `used, `sealed, `cut
      ensures Valid() && used >= old(used)
      ensures !encrypting || buffer.None? ==> r == SOCKET_ERROR && sealed == old(sealed) && used == old(used) && cut == old(cut)
      ensures r == SOCKET_ERROR || (buffer.Some? && r == |buffer.value|)
      ensures old(sealed) <= sealed
      ensures encrypting && buffer.Some? ==> Carried(buffer.value, sealed[|old(sealed)|..], r)
      ensures encrypting && buffer.Some? && old(used) == |script| ==> r == |buffer.value|
    {
      if buffer.None? {
        return SOCKET_ERROR;
      }
      var data := buffer.value;
      if !encrypting {
        return SOCKET_ERROR;
      }
      if |data| > MaxChunk() {
        r := SendChunks(data);
      } else {
        r := SendRecord(data);
        ghost var added := sealed[|old(sealed)|..];
        assert if r == SOCKET_ERROR then added == [] else added == [data] && Concat([data]) == Concat([]) + data;
      }
    }

    /** What the records of one call carry. */
    predicate Carried(data: bytes, added: seq<bytes>, r: int) {
      && (forall i :: 0 <= i < |added| ==> |added[i]| <= 16000 && (schannelMaximum != 0 ==> |added[i]| <= schannelMaximum))
      && Concat(added) <= data
      && (r != SOCKET_ERROR ==> Concat(added) == data)
    }

    /** The loop over records. */
    method SendChunks(data: bytes) returns (r: int)
      requires Valid() && encrypting && |data| > MaxChunk()
      modifies `used, `sealed, `cut
      ensures Valid() && used >= old(used)
      ensures r == SOCKET_ERROR || r == |data|
      ensures old(sealed) <= sealed && Carried(data, sealed[|old(sealed)|..], r)
      ensures old(used) == |script| ==> r == |data|
    {
      var maxChunk := MaxChunk();
      var total := 0;
      ghost var added: seq<bytes> := [];
      while total < |data|
        invariant Valid() && used >= old(used)
        invariant total <= |data| && sealed == old(sealed) + added && Concat(added) == data[..total]
        invariant forall i :: 0 <= i < |added| ==> |added[i]| <= maxChunk
        invariant old(used) == |script| ==> used == |script|
        decreases |data| - total
      {
        var remaining := |data| - total;
        var chunk := if maxChunk < remaining then maxChunk else remaining;
        var sent := SendRecord(data[total..total + chunk]);
        if sent == SOCKET_ERROR || sent <= 0 {
          assert sealed[|old(sealed)|..] == added;
          return SOCKET_ERROR;
        }
        ghost var more := added + [data[total..total + chunk]];
        assert more[..|more| - 1] == added;
        assert sealed == old(sealed) + more;
        assert data[..total] + data[total..total + chunk] == data[..total + chunk];
        added := more;
        total := total + sent;
      }
      assert sealed[|old(sealed)|..] == added;
      return total;
    }
  }
}
