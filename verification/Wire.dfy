/** Byte encoding of the message structures of PROJ2/src/types.h: no padding between
    fields, integers little-endian as on the machines the programs are built for. */
module Bytes {
  import opened BankTypes

  function Encode32(x: uint32): (bytes: seq<byte>)
    ensures |bytes| == 4
  {
    [x % 256, x / 256 % 256, x / 0x1_0000 % 256, x / 0x100_0000]
  }

  function Decode32(bytes: seq<byte>): uint32
    requires |bytes| == 4
  {
    var b0: int, b1: int, b2: int, b3: int := bytes[0], bytes[1], bytes[2], bytes[3];
    b0 + 256 * b1 + 0x1_0000 * b2 + 0x100_0000 * b3
  }

  lemma RoundTrip32(x: uint32)
    ensures Decode32(Encode32(x)) == x
  {
    assert x / 0x1_0000 == x / 256 / 256 && x / 0x100_0000 == x / 0x1_0000 / 256;
  }

  /** The four bytes at offset `at` are the number's digits, the lowest first. */
  predicate LittleEndian(bytes: seq<byte>, at: nat, x: uint32)
    requires at + 4 <= |bytes|
  {
    x as int == bytes[at] as int + 256 * bytes[at + 1] as int
                + 65_536 * bytes[at + 2] as int + 16_777_216 * bytes[at + 3] as int
  }

  lemma EncodeIsLittleEndian(x: uint32)
    ensures LittleEndian(Encode32(x), 0, x)
  {
    assert x / 0x1_0000 == x / 256 / 256 && x / 0x100_0000 == x / 0x1_0000 / 256;
  }

  lemma EncodedAt(before: seq<byte>, x: uint32, after: seq<byte>)
    ensures LittleEndian(before + Encode32(x) + after, |before|, x)
  {
    hide Encode32;
    EncodeIsLittleEndian(x);
    var bytes := before + Encode32(x) + after;
    assert forall k :: 0 <= k < 4 ==> bytes[|before| + k] == Encode32(x)[k];
    assert bytes[|before| + 0] == Encode32(x)[0];
    assert bytes[|before| + 1] == Encode32(x)[1];
    assert bytes[|before| + 2] == Encode32(x)[2];
    assert bytes[|before| + 3] == Encode32(x)[3];
  }

  /** The bytes at offset `at` are the string and its NUL. */
  predicate StringAt(bytes: seq<byte>, at: nat, s: Text) {
    && at + |s| < |bytes| && bytes[at + |s|] == 0
    && forall k :: 0 <= k < |s| ==> bytes[at + k] == s[k]
  }

  lemma CopiedAt(before: seq<byte>, s: Text, garbage: seq<byte>, after: seq<byte>)
    requires IsPassword(s) && |garbage| == PASSWORD_SIZE
    ensures StringAt(before + CopyString(s, garbage) + after, |before|, s)
  {
    var field := CopyString(s, garbage);
    assert field[|s|] == 0 && forall k :: 0 <= k < |s| ==> field[k] == s[k];
    assert forall k :: 0 <= k <= |s| ==> (before + field + after)[|before| + k] == field[k];
  }

  /** The uint32_t at offset `at`. */
  function Word(bytes: seq<byte>, at: nat): uint32
    requires at + 4 <= |bytes|
  {
    Decode32(bytes[at..at + 4])
  }

  lemma WordAt(before: seq<byte>, x: uint32, after: seq<byte>)
    ensures Word(before + Encode32(x) + after, |before|) == x
  {
    assert (before + Encode32(x) + after)[|before|..|before| + 4] == Encode32(x);
    RoundTrip32(x);
  }

  const PASSWORD_SIZE: nat := MAX_PASSWORD_LEN + 1

  predicate IsPassword(s: Text) {
    |s| <= MAX_PASSWORD_LEN && 0 !in s
  }

  /** A password array after `strcpy` into memory that held `garbage`. */
  function CopyString(s: Text, garbage: seq<byte>): (field: seq<byte>)
    requires IsPassword(s) && |garbage| == PASSWORD_SIZE
    ensures |field| == PASSWORD_SIZE
  {
    s + [0] + garbage[|s| + 1..]
  }

  /** The C string that starts a field. */
  function StringOf(field: seq<byte>): Text {
    if field == [] || field[0] == 0 then [] else [field[0]] + StringOf(field[1..])
  }

  lemma {:induction false} StringOfCopy(s: Text, rest: seq<byte>)
    requires 0 !in s
    ensures StringOf(s + [0] + rest) == s
  {
    var field := s + [0] + rest;
    if s != [] {
      assert field[1..] == s[1..] + [0] + rest;
      StringOfCopy(s[1..], rest);
    }
  }
}

/** Requests as the client writes them and `readRequests` takes them apart again. */
module RequestWire {
  import opened BankTypes
  import opened Bytes
  import opened RequestQueues

  const HEADER_SIZE: nat := 12 + PASSWORD_SIZE
  const CREATE_SIZE: nat := 8 + PASSWORD_SIZE
  const TRANSFER_SIZE: nat := 8

  /** What memory held where the client's two password arrays lie. */
  datatype Garbage = Garbage(password: seq<byte>, newPassword: seq<byte>)

  predicate GarbageFits(g: Garbage) {
    |g.password| == PASSWORD_SIZE && |g.newPassword| == PASSWORD_SIZE
  }

  predicate Sendable(req: Request) {
    IsPassword(req.password) && (req.op.CreateAccount? ==> IsPassword(req.op.newPassword))
  }

  function TypeNumber(op: Operation): uint32 {
    match op
    case CreateAccount(_, _, _) => 0
    case Balance => 1
    case Transfer(_, _) => 2
    case Shutdown => 3
  }

  function EncodeHeader(req: Request, g: Garbage): (bytes: seq<byte>)
    requires Sendable(req) && GarbageFits(g)
    ensures |bytes| == HEADER_SIZE
  {
    Encode32(req.pid) + Encode32(req.id) + CopyString(req.password, g.password) + Encode32(req.delay)
  }

  function EncodeArgs(req: Request, g: Garbage): (bytes: seq<byte>)
    requires Sendable(req) && GarbageFits(g)
    ensures |bytes| == match req.op
                       case CreateAccount(_, _, _) => CREATE_SIZE
                       case Transfer(_, _) => TRANSFER_SIZE
                       case _ => 0
  {
    match req.op
    case CreateAccount(newId, balance, newPassword) =>
      Encode32(newId) + Encode32(balance) + CopyString(newPassword, g.newPassword)
    case Transfer(destId, amount) => Encode32(destId) + Encode32(amount)
    case _ => []
  }

  /** What `sendRequest` writes: type, length and the first `length` bytes of the value. */
  function EncodeRequest(req: Request, g: Garbage): seq<byte>
    requires Sendable(req) && GarbageFits(g)
  {
    var value := EncodeHeader(req, g) + EncodeArgs(req, g);
    Encode32(TypeNumber(req.op)) + Encode32(|value|) + value
  }

  /** A message as it lies in the server's buffer. */
  datatype Frame = Frame(kind: uint32, length: uint32, value: seq<byte>)

  /** The fields that the server uses of a message of its type. */
  function DecodeFrame(f: Frame): Option<Request> {
    if |f.value| < HEADER_SIZE then None
    else
      var pid, id, password, delay :=
        Word(f.value, 0), Word(f.value, 4), StringOf(f.value[8..8 + PASSWORD_SIZE]), Word(f.value, 8 + PASSWORD_SIZE);
      if f.kind == 0 && |f.value| >= HEADER_SIZE + CREATE_SIZE then
        Some(Request(pid, id, password, delay,
                     CreateAccount(Word(f.value, HEADER_SIZE), Word(f.value, HEADER_SIZE + 4),
                                   StringOf(f.value[HEADER_SIZE + 8..HEADER_SIZE + CREATE_SIZE]))))
      else if f.kind == 1 then Some(Request(pid, id, password, delay, Balance))
      else if f.kind == 2 && |f.value| >= HEADER_SIZE + TRANSFER_SIZE then
        Some(Request(pid, id, password, delay,
                     Transfer(Word(f.value, HEADER_SIZE), Word(f.value, HEADER_SIZE + 4))))
      else if f.kind == 3 then Some(Request(pid, id, password, delay, Shutdown))
      else None
  }

  function FrameOf(req: Request, g: Garbage): Frame
    requires Sendable(req) && GarbageFits(g)
  {
    var value := EncodeHeader(req, g) + EncodeArgs(req, g);
    Frame(TypeNumber(req.op), |value|, value)
  }

  lemma DecodeHeader(req: Request, g: Garbage, args: seq<byte>)
    requires Sendable(req) && GarbageFits(g)
    ensures var value := EncodeHeader(req, g) + args;
            && Word(value, 0) == req.pid && Word(value, 4) == req.id
            && StringOf(value[8..8 + PASSWORD_SIZE]) == req.password
            && Word(value, 8 + PASSWORD_SIZE) == req.delay
  {
    var p, i, s, d := Encode32(req.pid), Encode32(req.id), CopyString(req.password, g.password), Encode32(req.delay);
    var value := EncodeHeader(req, g) + args;
    assert value == [] + p + (i + s + d + args);
    WordAt([], req.pid, i + s + d + args);
    assert value == p + i + (s + d + args);
    WordAt(p, req.id, s + d + args);
    assert value[8..8 + PASSWORD_SIZE] == s;
    StringOfCopy(req.password, g.password[|req.password| + 1..]);
    assert value == (p + i + s) + d + args;
    WordAt(p + i + s, req.delay, args);
  }

  lemma DecodeArgs(req: Request, g: Garbage)
    requires Sendable(req) && GarbageFits(g)
    ensures var value := EncodeHeader(req, g) + EncodeArgs(req, g);
            match req.op
            case CreateAccount(newId, balance, newPassword) =>
              && Word(value, HEADER_SIZE) == newId && Word(value, HEADER_SIZE + 4) == balance
              && StringOf(value[HEADER_SIZE + 8..HEADER_SIZE + CREATE_SIZE]) == newPassword
            case Transfer(destId, amount) =>
              Word(value, HEADER_SIZE) == destId && Word(value, HEADER_SIZE + 4) == amount
            case _ => true
  {
    var header, value := EncodeHeader(req, g), EncodeHeader(req, g) + EncodeArgs(req, g);
    match req.op
    case CreateAccount(newId, balance, newPassword) =>
      var a, b, s := Encode32(newId), Encode32(balance), CopyString(newPassword, g.newPassword);
      assert value == header + a + (b + s);
      WordAt(header, newId, b + s);
      assert value == (header + a) + b + s;
      WordAt(header + a, balance, s);
      assert value[HEADER_SIZE + 8..HEADER_SIZE + CREATE_SIZE] == s;
      StringOfCopy(newPassword, g.newPassword[|newPassword| + 1..]);
    case Transfer(destId, amount) =>
      var a, b := Encode32(destId), Encode32(amount);
      assert value == header + a + b;
      WordAt(header, destId, b);
      assert value == (header + a) + b + [];
      WordAt(header + a, amount, []);
    case _ =>
  }

  lemma FrameRoundTrip(req: Request, g: Garbage)
    requires Sendable(req) && GarbageFits(g)
    ensures DecodeFrame(FrameOf(req, g)) == Some(req)
  {
    DecodeHeader(req, g, EncodeArgs(req, g));
    DecodeArgs(req, g);
  }

  // ----- the layout, byte for byte -----

  /** The first 41 bytes of every message: type, length, process, account, password, delay. */
  lemma HeaderLayout(req: Request, g: Garbage)
    requires Sendable(req) && GarbageFits(g)
    ensures var bytes := EncodeRequest(req, g);
            && |bytes| == (match req.op case CreateAccount(_, _, _) => 70 case Transfer(_, _) => 49 case _ => 41)
            && LittleEndian(bytes, 0, match req.op case CreateAccount(_, _, _) => 0 case Balance => 1
                                                   case Transfer(_, _) => 2 case Shutdown => 3)
            && LittleEndian(bytes, 4, |bytes| - 8)
            && LittleEndian(bytes, 8, req.pid) && LittleEndian(bytes, 12, req.id)
            && StringAt(bytes, 16, req.password) && LittleEndian(bytes, 37, req.delay)
  {
    hide Encode32, CopyString, LittleEndian, StringAt;
    var bytes, args := EncodeRequest(req, g), EncodeArgs(req, g);
    var t, n := Encode32(TypeNumber(req.op)), Encode32(HEADER_SIZE + |args|);
    var p, i, s, d := Encode32(req.pid), Encode32(req.id), CopyString(req.password, g.password), Encode32(req.delay);
    assert bytes == [] + t + (n + p + i + s + d + args);
    EncodedAt([], TypeNumber(req.op), n + p + i + s + d + args);
    assert bytes == t + n + (p + i + s + d + args);
    EncodedAt(t, HEADER_SIZE + |args|, p + i + s + d + args);
    assert bytes == (t + n) + p + (i + s + d + args);
    EncodedAt(t + n, req.pid, i + s + d + args);
    assert bytes == (t + n + p) + i + (s + d + args);
    EncodedAt(t + n + p, req.id, s + d + args);
    assert bytes == (t + n + p + i) + s + (d + args);
    CopiedAt(t + n + p + i, req.password, g.password, d + args);
    assert bytes == (t + n + p + i + s) + d + args;
    EncodedAt(t + n + p + i + s, req.delay, args);
  }

  /** What follows them in an opening and in a transfer. */
  lemma ArgsLayout(req: Request, g: Garbage)
    requires Sendable(req) && GarbageFits(g)
    ensures var bytes := EncodeRequest(req, g);
            match req.op
            case CreateAccount(newId, balance, newPassword) =>
              && |bytes| == 70 && LittleEndian(bytes, 41, newId) && LittleEndian(bytes, 45, balance)
              && StringAt(bytes, 49, newPassword)
            case Transfer(destId, amount) =>
              |bytes| == 49 && LittleEndian(bytes, 41, destId) && LittleEndian(bytes, 45, amount)
            case _ => true
  {
    hide Encode32, CopyString, LittleEndian, StringAt;
    var bytes := EncodeRequest(req, g);
    var front := bytes[..41];
    match req.op
    case CreateAccount(newId, balance, newPassword) =>
      var a, b, s := Encode32(newId), Encode32(balance), CopyString(newPassword, g.newPassword);
      assert bytes == front + a + (b + s);
      EncodedAt(front, newId, b + s);
      assert bytes == (front + a) + b + s;
      EncodedAt(front + a, balance, s);
      assert bytes == (front + a + b) + s + [];
      CopiedAt(front + a + b, newPassword, g.newPassword, []);
    case Transfer(destId, amount) =>
      var a, b := Encode32(destId), Encode32(amount);
      assert bytes == front + a + b;
      EncodedAt(front, destId, b);
      assert bytes == (front + a) + b + [];
      EncodedAt(front + a, amount, []);
    case _ =>
  }

  // ----- the byte stream -----

  function Least(a: int, b: int): int { if a < b then a else b }

  /** What two `read` calls give for the next message: nothing at the end of the stream,
      after a header cut short, or for a value of no bytes. */
  function NextFrame(stream: seq<byte>): Option<Frame> {
    if |stream| < 8 then None
    else
      var length := Word(stream, 4);
      var value := stream[8..8 + Least(length, |stream| - 8)];
      if value == [] then None else Some(Frame(Word(stream, 0), length, value))
  }

  function Frames(stream: seq<byte>): seq<Frame>
    decreases |stream|
  {
    match NextFrame(stream)
    case None => []
    case Some(f) => [f] + Frames(stream[8 + |f.value|..])
  }

  /** The bytes that the two reads at `pos` return are those of the next frame. */
  lemma ReadsGiveFrame(stream: seq<byte>, pos: nat)
    requires pos <= |stream|
    ensures var header := stream[pos..Least(pos + 8, |stream|)];
            if |header| < 8 then Frames(stream[pos..]) == []
            else
              var length := Word(header, 4);
              var value := stream[pos + 8..Least(pos + 8 + length, |stream|)];
              Frames(stream[pos..]) ==
              if value == [] then []
              else [Frame(Word(header, 0), length, value)] + Frames(stream[pos + 8 + |value|..])
  {
    hide Decode32;
    var rest, header := stream[pos..], stream[pos..Least(pos + 8, |stream|)];
    if |header| == 8 {
      assert header == rest[..8];
      assert rest[..8][0..4] == rest[0..4];
      assert rest[..8][4..8] == rest[4..8];
      var length := Word(header, 4);
      var value := stream[pos + 8..Least(pos + 8 + length, |stream|)];
      assert value == rest[8..8 + Least(length, |rest| - 8)];
      assert rest[8 + |value|..] == stream[pos + 8 + |value|..];
    }
  }

  /** The loop of `readRequests`, pushing every message to the queue. */
  method ReadRequests(stream: seq<byte>, queue: RequestQueue<Frame>)
    requires queue.Consistent()
    modifies queue, queue.cells
    ensures queue.Consistent() && queue.Items() == old(queue.Items()) + Frames(stream)
  {
    hide Frames, NextFrame, Decode32;
    var pos := 0;
    assert stream[0..] == stream;
    while true
      invariant 0 <= pos <= |stream| && queue.Consistent()
      invariant queue.cells == old(queue.cells) || fresh(queue.cells)
      invariant queue.Items() + Frames(stream[pos..]) == old(queue.Items()) + Frames(stream)
      decreases |stream| - pos
    {
      ReadsGiveFrame(stream, pos);
      var header := stream[pos..Least(pos + 8, |stream|)];
      if |header| < 8 {
        break; // the second read finds the stream exhausted
      }
      var length := Word(header, 4);
      var value := stream[pos + 8..Least(pos + 8 + length, |stream|)];
      if value == [] {
        break;
      }
      ghost var before, rest := queue.Items(), Frames(stream[pos + 8 + |value|..]);
      var frame := Frame(Word(header, 0), length, value);
      queue.Push(frame);
      Reassociate(before, frame, rest);
      pos := pos + 8 + |value|;
    }
  }

  /** Whole messages: the value has the length that was announced. */
  predicate Whole(f: Frame) {
    f.length == |f.value|
  }

  function Serialize(frames: seq<Frame>): seq<byte> {
    if frames == [] then []
    else Encode32(frames[0].kind) + Encode32(frames[0].length) + frames[0].value + Serialize(frames[1..])
  }

  /** The messages before the first one without a value. */
  function UntilEmpty(frames: seq<Frame>): seq<Frame> {
    if frames == [] || frames[0].value == [] then [] else [frames[0]] + UntilEmpty(frames[1..])
  }

  lemma NextOfSerialized(f: Frame, rest: seq<byte>)
    requires Whole(f)
    ensures var stream := Encode32(f.kind) + Encode32(f.length) + f.value + rest;
            && NextFrame(stream) == (if f.value == [] then None else Some(f))
            && stream[8 + |f.value|..] == rest
  {
    var t, n := Encode32(f.kind), Encode32(f.length);
    var stream := t + n + f.value + rest;
    assert stream == [] + t + (n + f.value + rest);
    WordAt([], f.kind, n + f.value + rest);
    assert stream == t + n + (f.value + rest);
    WordAt(t, f.length, f.value + rest);
    assert stream[8..8 + |f.value|] == f.value;
  }

  /** The loop yields exactly the messages before the first one of length 0. */
  lemma {:induction false} FramesOfSerialized(frames: seq<Frame>)
    requires forall k :: 0 <= k < |frames| ==> Whole(frames[k])
    ensures Frames(Serialize(frames)) == UntilEmpty(frames)
  {
    if frames != [] {
      NextOfSerialized(frames[0], Serialize(frames[1..]));
      FramesOfSerialized(frames[1..]);
    }
  }

  /** So it yields all of them, stopping only at the end of the stream, exactly when
      none has length 0. */
  lemma {:induction false} AllFramesExactly(frames: seq<Frame>)
    requires forall k :: 0 <= k < |frames| ==> Whole(frames[k])
    ensures Frames(Serialize(frames)) == frames <==> forall k :: 0 <= k < |frames| ==> frames[k].length > 0
  {
    FramesOfSerialized(frames);
    UntilEmptyIsAll(frames);
  }

  lemma {:induction false} UntilEmptyIsAll(frames: seq<Frame>)
    requires forall k :: 0 <= k < |frames| ==> Whole(frames[k])
    ensures |UntilEmpty(frames)| <= |frames|
    ensures UntilEmpty(frames) == frames <==> forall k :: 0 <= k < |frames| ==> frames[k].length > 0
  {
    if frames != [] {
      UntilEmptyIsAll(frames[1..]);
      if frames[0].value != [] {
        assert UntilEmpty(frames) == frames <==> UntilEmpty(frames[1..]) == frames[1..] by {
          assert UntilEmpty(frames)[1..] == UntilEmpty(frames[1..]);
          assert frames == [frames[0]] + frames[1..];
        }
        assert forall k :: 1 <= k < |frames| ==> frames[k] == frames[1..][k - 1];
        assert forall k :: 0 <= k < |frames| - 1 ==> frames[1..][k] == frames[k + 1];
      }
    }
  }

  /** Any sequence of requests, written whole one after the other, comes out of the
      server's loop as exactly that sequence. */
  lemma {:induction false} RequestsRoundTrip(reqs: seq<Request>, garbage: seq<Garbage>, stream: seq<byte>)
    requires |garbage| == |reqs|
    requires forall k :: 0 <= k < |reqs| ==> Sendable(reqs[k]) && GarbageFits(garbage[k])
    requires stream == Concatenated(reqs, garbage)
    ensures |Frames(stream)| == |reqs|
    ensures forall k :: 0 <= k < |reqs| ==> DecodeFrame(Frames(stream)[k]) == Some(reqs[k])
  {
    if reqs != [] {
      var f := FrameOf(reqs[0], garbage[0]);
      var rest := Concatenated(reqs[1..], garbage[1..]);
      FrameRoundTrip(reqs[0], garbage[0]);
      NextOfSerialized(f, rest);
      RequestsRoundTrip(reqs[1..], garbage[1..], rest);
      assert Frames(stream) == [f] + Frames(rest);
    }
  }

  function Concatenated(reqs: seq<Request>, garbage: seq<Garbage>): seq<byte>
    requires |garbage| == |reqs|
    requires forall k :: 0 <= k < |reqs| ==> Sendable(reqs[k]) && GarbageFits(garbage[k])
  {
    if reqs == [] then [] else EncodeRequest(reqs[0], garbage[0]) + Concatenated(reqs[1..], garbage[1..])
  }
}

/** Replies as an office writes them and the client reads them into a fresh reply. */
module ReplyWire {
  import opened BankTypes
  import opened Bytes
  import opened AtomicBank

  function OpNumber(op: OpType): uint32 {
    match op
    case OpCreate => 0
    case OpBalance => 1
    case OpTransfer => 2
    case OpShutdown => 3
  }

  function OpOfNumber(n: uint32): Option<OpType> {
    if n == 0 then Some(OpCreate)
    else if n == 1 then Some(OpBalance)
    else if n == 2 then Some(OpTransfer)
    else if n == 3 then Some(OpShutdown)
    else None
  }

  function CodeOfNumber(n: uint32): Option<RetCode> {
    match n
    case 0 => Some(Ok)
    case 1 => Some(SrvDown)
    case 2 => Some(SrvTimeout)
    case 3 => Some(UsrDown)
    case 4 => Some(LoginFail)
    case 5 => Some(OpNotAllowed)
    case 6 => Some(IdInUse)
    case 7 => Some(IdNotFound)
    case 8 => Some(SameId)
    case 9 => Some(NoFunds)
    case 10 => Some(TooHigh)
    case 11 => Some(Other)
    case _ => None
  }

  const VALUE_SIZE: nat := 12

  function EncodeValue(r: Reply): (bytes: seq<byte>)
    ensures |bytes| == VALUE_SIZE
  {
    Encode32(r.id) + Encode32(CodeNumber(r.code)) + Encode32(r.payload)
  }

  /** What `sendReply` writes. */
  function EncodeReply(r: Reply): seq<byte>
    requires r.length <= VALUE_SIZE
  {
    Encode32(OpNumber(r.op)) + Encode32(r.length) + EncodeValue(r)[..r.length]
  }

  /** `newReply`: type and length -1, account -1, code OTHER, payload 0. */
  function FreshBuffer(): (bytes: seq<byte>)
    ensures |bytes| == 8 + VALUE_SIZE
  {
    Encode32(TWO_32 - 1) + Encode32(TWO_32 - 1) +
    (Encode32(TWO_32 - 1) + Encode32(CodeNumber(Other)) + Encode32(0))
  }

  /** `awaitReply`: two reads over a fresh reply, the second as long as the first says. */
  function ReadReply(bytes: seq<byte>): Option<Reply> {
    var h := if |bytes| < 8 then |bytes| else 8;
    var header := bytes[..h] + FreshBuffer()[h..8];
    var length := Word(header, 4);
    var available := if |bytes| - h < VALUE_SIZE then |bytes| - h else VALUE_SIZE;
    var n := if length < available then length else available;
    var value := bytes[h..h + n] + FreshBuffer()[8 + n..];
    match (OpOfNumber(Word(header, 0)), CodeOfNumber(Word(value, 4)))
    case (Some(op), Some(code)) => Some(Reply(op, length, Word(value, 0), code, Word(value, 8)))
    case (_, _) => None
  }

  /** A reply announces a header, or a header and a payload. */
  predicate Framed(r: Reply) {
    r.length == REPLY_HEADER_SIZE || r.length == REPLY_HEADER_SIZE + REPLY_PAYLOAD_SIZE
  }

  lemma ValueWords(id: uint32, code: uint32, payload: uint32)
    ensures var value := Encode32(id) + Encode32(code) + Encode32(payload);
            Word(value, 0) == id && Word(value, 4) == code && Word(value, 8) == payload
  {
    var a, b, c := Encode32(id), Encode32(code), Encode32(payload);
    assert a + b + c == [] + a + (b + c);
    WordAt([], id, b + c);
    WordAt(a, code, c);
    assert a + b + c == (a + b) + c + [];
    WordAt(a + b, payload, []);
  }

  lemma HeaderWords(op: uint32, length: uint32)
    ensures Word(Encode32(op) + Encode32(length), 0) == op && Word(Encode32(op) + Encode32(length), 4) == length
  {
    var a, b := Encode32(op), Encode32(length);
    assert a + b == [] + a + b;
    WordAt([], op, b);
    assert a + b == a + b + [];
    WordAt(a, length, []);
  }

  /** The client gets the reply that was sent; whatever lies behind the header of a
      header-only reply, the client sees payload 0. */
  lemma ReplyRoundTrip(r: Reply)
    requires Framed(r)
    ensures ReadReply(EncodeReply(r)) ==
            Some(r.(payload := if r.length == REPLY_HEADER_SIZE then 0 else r.payload))
  {
    hide Encode32, Decode32;
    var bytes := EncodeReply(r);
    var payload := if r.length == REPLY_HEADER_SIZE then 0 else r.payload;
    var head := Encode32(OpNumber(r.op)) + Encode32(r.length);
    HeaderWords(OpNumber(r.op), r.length);
    assert bytes[..8] + FreshBuffer()[8..8] == head;
    var value := Encode32(r.id) + Encode32(CodeNumber(r.code)) + Encode32(payload);
    assert bytes[8..8 + r.length] + FreshBuffer()[8 + r.length..] == value;
    ValueWords(r.id, CodeNumber(r.code), payload);
  }

  /** The return codes in the order of types.h; their numbers are their positions. */
  const RET_CODES: seq<RetCode> :=
    [Ok, SrvDown, SrvTimeout, UsrDown, LoginFail, OpNotAllowed, IdInUse, IdNotFound, SameId, NoFunds, TooHigh, Other]

  /** The bytes of a reply: type, length, account, code and, if announced, the payload. */
  lemma ReplyLayout(r: Reply)
    requires Framed(r)
    ensures var bytes := EncodeReply(r);
            && |bytes| == 8 + r.length && (|bytes| == 16 || |bytes| == 20)
            && LittleEndian(bytes, 0, match r.op case OpCreate => 0 case OpBalance => 1
                                                 case OpTransfer => 2 case OpShutdown => 3)
            && LittleEndian(bytes, 4, r.length) && LittleEndian(bytes, 8, r.id)
            && (forall n :: 0 <= n < |RET_CODES| && RET_CODES[n] == r.code ==> LittleEndian(bytes, 12, n))
            && (|bytes| == 20 ==> LittleEndian(bytes, 16, r.payload))
  {
    hide Encode32, LittleEndian;
    var bytes := EncodeReply(r);
    var t, n := Encode32(OpNumber(r.op)), Encode32(r.length);
    var i, c, p := Encode32(r.id), Encode32(CodeNumber(r.code)), Encode32(r.payload);
    var rest := if r.length == REPLY_HEADER_SIZE then [] else p;
    assert bytes == t + n + i + c + rest;
    assert bytes == [] + t + (n + i + c + rest);
    EncodedAt([], OpNumber(r.op), n + i + c + rest);
    assert bytes == t + n + (i + c + rest);
    EncodedAt(t, r.length, i + c + rest);
    assert bytes == (t + n) + i + (c + rest);
    EncodedAt(t + n, r.id, c + rest);
    assert bytes == (t + n + i) + c + rest;
    EncodedAt(t + n + i, CodeNumber(r.code), rest);
    if r.length != REPLY_HEADER_SIZE {
      assert bytes == (t + n + i + c) + p + [];
      EncodedAt(t + n + i + c, r.payload, []);
    }
  }

  /** Whatever the bank answers, the client reads exactly that answer. */
  lemma AnswersArrive(hash: Hasher, l: Ledger, req: Request, salt: Text, activeOffices: uint32)
    requires InRange(req, |l|)
    ensures var reply := Exec(hash, l, req, salt, activeOffices).reply;
            Framed(reply) && ReadReply(EncodeReply(reply)) == Some(reply)
  {
    ReplyRoundTrip(Exec(hash, l, req, salt, activeOffices).reply);
  }
}
