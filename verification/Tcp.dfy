/**
 The TCP control block (kernel/net/tcp.c; section 3.9 of RFC 793) and the TCP
 branch of sockrecv (kernel/net/socket.c:250-293).

 First what every operation does to a control block, as functions on values;
 then the connection's properties over whole runs; last the code on a mutable
 control block. Sequence numbers are 32-bit and compared as plain unsigned
 numbers, as the code does. Segments have the 20-byte header.
 */
module Tcp {
  import opened Common

  const U32: nat := 0x1_0000_0000
  const WND: nat := 4096          // SOCK_CB_DEFAULT_WND_SIZE, which is PGSIZE

  datatype SockState =
    | CLOSED | LISTEN | SYN_SENT | SYN_RCVD | ESTAB
    | FIN_WAIT_1 | FIN_WAIT_2 | CLOSING | TIME_WAIT | CLOSE_WAIT | LAST_ACK

  datatype Flags = Flags(fin: bool, syn: bool, rst: bool, psh: bool, ack: bool)

  /** A received segment: header fields and text. */
  datatype Seg = Seg(raddr: nat, dport: nat, seqno: nat, ackno: nat, wnd: nat, flags: Flags, text: seq<Byte>)

  /** A segment sent. */
  datatype Out = Out(seqno: nat, ackno: nat, wnd: nat, flags: Flags, len: nat)

  datatype TxBuf = TxBuf(seqno: nat, flags: Flags, len: nat)

  datatype RxBuf = RxBuf(text: seq<Byte>, psh: bool)

  datatype Tcb = Tcb(
    state: SockState, raddr: nat, dport: nat,
    sndInit: nat, sndUnack: nat, sndNxt: nat, sndWnd: nat, sndWl1: nat, sndWl2: nat,
    rcvInit: nat, rcvNxt: nat, rcvWnd: nat,
    txq: seq<TxBuf>, rxq: seq<RxBuf>,
    out: seq<Out>,
    freed: bool)

  /** The TCP_OP_ codes. */
  datatype Code = RETRANS | CLOSE_SCB | SND_RST | ERR | OK | SND_ACK | TXT_OK | FREE_MBUF

  const ACK: Flags := Flags(false, false, false, false, true)
  const SYN: Flags := Flags(false, true, false, false, false)
  const SYN_ACK: Flags := Flags(false, true, false, false, true)
  const RST: Flags := Flags(false, false, true, false, false)
  const RST_ACK: Flags := Flags(false, false, true, false, true)
  const FIN_ACK: Flags := Flags(true, false, false, false, true)

  /** Unsigned 32-bit addition. */
  function Add(a: nat, b: nat): (r: nat)
    ensures a + b < U32 ==> r == a + b
  {
    (a + b) % U32
  }

  // ---------------------------------------------------------------- operations on values

  /** alloc_sock_cb */
  const FRESH: Tcb := Tcb(CLOSED, 0, 0, 0, 0, 0, 0, 0, 0, 0, 0, WND, [], [], [], false)

  /** tcp_send_core: the acknowledgement number is sent only with the ACK flag. */
  function Emit(t: Tcb, seqno: nat, ackno: nat, flags: Flags, len: nat): Tcb {
    t.(out := t.out + [Out(seqno, if flags.ack then ackno else 0, t.rcvWnd, flags, len)])
  }

  function EmitAck(t: Tcb): Tcb { Emit(t, t.sndNxt, t.rcvNxt, ACK, 0) }

  /** is_seq_valid */
  predicate SeqValid(wnd: nat, nxt: nat, seqno: nat, len: nat) {
    if wnd == 0 then len == 0 && seqno == nxt
    else if len == 0 then nxt <= seqno < Add(nxt, wnd)
    else nxt <= seqno < Add(nxt, wnd) || nxt <= Add(seqno, len - 1) < Add(nxt, wnd)
  }

  function Listen(t: Tcb): Tcb { t.(state := LISTEN) }

  /** sockconnect and tcp_connect */
  function Connect(t: Tcb, raddr: nat, dport: nat): Tcb {
    var t1 := t.(raddr := raddr, dport := dport, rcvWnd := WND);
    Emit(t1, t1.sndNxt, t1.rcvNxt, SYN, 0).(state := SYN_SENT, sndNxt := Add(t1.sndInit, 1))
  }

  function RecvListen(t: Tcb, s: Seg): (Tcb, Code) {
    if s.flags.rst then (t, ERR)
    else if s.flags.ack then (Emit(t, s.ackno, 0, RST_ACK, 0), ERR)
    else if s.flags.syn then
      var t1 := t.(dport := s.dport, raddr := s.raddr, rcvWnd := WND, rcvInit := s.seqno, rcvNxt := Add(s.seqno, 1),
                   sndInit := 0, sndNxt := 1, sndUnack := 0);
      (Emit(t1, 0, t1.rcvNxt, SYN_ACK, 0).(state := SYN_RCVD), OK)
    else (t, ERR)
  }

  function RecvSynSent(t: Tcb, s: Seg): (Tcb, Code) {
    if s.flags.ack && (s.ackno <= t.sndInit || s.ackno > t.sndNxt) then
      (Emit(t, t.sndNxt, t.rcvNxt, RST_ACK, 0).(sndNxt := Add(t.sndInit, 1)), ERR)
    else if s.flags.rst then (t, ERR)
    else if s.flags.syn && s.flags.ack then
      var t1 := t.(rcvNxt := Add(s.seqno, 1), rcvInit := s.seqno, sndUnack := s.ackno);
      if t1.sndUnack > t1.sndInit then (EmitAck(t1.(state := ESTAB)), OK)
      else (Emit(t1.(state := SYN_RCVD), t1.sndInit, t1.rcvNxt, SYN_ACK, 0), OK)
    else (t, ERR)
  }

  function CheckRst(t: Tcb, f: Flags): (Tcb, Code) {
    if !f.rst then (t, OK)
    else
      match t.state
      case SYN_RCVD => (t.(state := LISTEN), CLOSE_SCB)
      case ESTAB => (t.(state := CLOSED), CLOSE_SCB)
      case FIN_WAIT_1 => (t.(state := CLOSED), CLOSE_SCB)
      case FIN_WAIT_2 => (t.(state := CLOSED), CLOSE_SCB)
      case CLOSE_WAIT => (t.(state := CLOSED), CLOSE_SCB)
      case CLOSING => (t.(state := CLOSED), CLOSE_SCB)
      case LAST_ACK => (t.(state := CLOSED), CLOSE_SCB)
      case TIME_WAIT => (t.(state := CLOSED), CLOSE_SCB)
      case _ => (t, OK)
  }

  predicate Synchronized(st: SockState) {
    st == SYN_RCVD || st == ESTAB || st == FIN_WAIT_1 || st == FIN_WAIT_2 || st == CLOSE_WAIT || st == CLOSING
    || st == LAST_ACK || st == TIME_WAIT
  }

  function CheckSyn(t: Tcb, f: Flags): Code {
    if Synchronized(t.state) && f.syn then SND_RST else OK
  }

  /** ntohl of a 16-bit field. */
  function Ntohl16(w: nat): nat {
    w % 256 * 0x100_0000 + w / 256 % 256 * 0x1_0000
  }

  function CheckAck(t: Tcb, s: Seg): (Tcb, Code) {
    if !s.flags.ack then (t, ERR)
    else
      var next := t.sndUnack < s.ackno <= t.sndNxt;
      match t.state
      case SYN_RCVD => if next then (t.(state := ESTAB), OK) else (t, SND_RST)
      case LAST_ACK => (t.(state := CLOSED), CLOSE_SCB)
      case ESTAB => AckStates(t, s, next)
      case FIN_WAIT_1 => AckStates(t, s, next)
      case FIN_WAIT_2 => AckStates(t, s, next)
      case CLOSE_WAIT => AckStates(t, s, next)
      case CLOSING => AckStates(t, s, next)
      case _ => (t, OK)
  }

  function AckStates(t: Tcb, s: Seg, next: bool): (Tcb, Code) {
    if !next && s.ackno < t.sndUnack then (t, ERR)
    else if !next && t.sndNxt < s.ackno then (t, SND_ACK)
    else
      var update := t.sndWl1 < s.seqno || (t.sndWl1 == s.seqno && t.sndWl2 <= s.ackno);
      var t1 := if !next then t
                else if update then
                  t.(sndUnack := s.ackno, sndWnd := Ntohl16(s.wnd), sndWl1 := s.seqno, sndWl2 := s.ackno)
                else t.(sndUnack := s.ackno);
      if t1.state == FIN_WAIT_1 then (t1.(state := FIN_WAIT_2), OK)
      else if t1.state == CLOSING then (t1.(state := CLOSED), CLOSE_SCB)
      else (t1, OK)
  }

  function CheckText(t: Tcb, seqno: nat, len: nat): (Tcb, Code) {
    if t.state == ESTAB || t.state == FIN_WAIT_1 || t.state == FIN_WAIT_2 then
      if len > 0 && t.rcvNxt == seqno then
        if t.rcvWnd > len then (t.(rcvNxt := Add(t.rcvNxt, len), rcvWnd := t.rcvWnd - len), TXT_OK) else (t, RETRANS)
      else (t, OK)
    else (t, ERR)
  }

  function CheckFin(t: Tcb, f: Flags): (Tcb, Code) {
    if !f.fin then (t, OK)
    else
      match t.state
      case SYN_RCVD => (t.(rcvNxt := Add(t.rcvNxt, 1), state := CLOSE_WAIT), SND_ACK)
      case ESTAB => (t.(rcvNxt := Add(t.rcvNxt, 1), state := CLOSE_WAIT), SND_ACK)
      case FIN_WAIT_1 => (t.(rcvNxt := Add(t.rcvNxt, 1)), CLOSE_SCB)
      case FIN_WAIT_2 => (t.(rcvNxt := Add(t.rcvNxt, 1)), CLOSE_SCB)
      case _ => (t, ERR)
  }

  /** The last stages of tcp_recv_core: text and FIN. */
  function RecvText(t: Tcb, s: Seg): (Tcb, Code) {
    var (t1, c1) := CheckText(t, s.seqno, |s.text|);
    if c1 == ERR then (t1, ERR)
    else if c1 == TXT_OK then (EmitAck(t1.(rxq := t1.rxq + [RxBuf(s.text, s.flags.psh)])), OK)
    else
      var (t2, c2) := CheckFin(t1, s.flags);
      if c2 == CLOSE_SCB then (EmitAck(t2), CLOSE_SCB)
      else if c2 == SND_ACK then (EmitAck(t2), ERR)
      else (t2, FREE_MBUF)
  }

  /** tcp_recv_core after the RST and SYN checks: acknowledgement, text, FIN. */
  function RecvAccepted(t: Tcb, s: Seg): (Tcb, Code) {
    var (t1, c1) := CheckAck(t, s);
    if c1 == CLOSE_SCB then (t1, CLOSE_SCB)
    else if c1 == SND_RST then (Emit(t1, t1.sndNxt, t1.rcvNxt, RST, 0), ERR)
    else if c1 == ERR then (t1, ERR)
    else if c1 == SND_ACK then (EmitAck(t1), ERR)
    else RecvText(t1, s)
  }

  function RecvCore(t: Tcb, s: Seg): (Tcb, Code) {
    if !SeqValid(t.rcvWnd, t.rcvNxt, s.seqno, |s.text|) then
      (if s.flags.rst then t else EmitAck(t), ERR)
    else
      var (t1, c1) := CheckRst(t, s.flags);
      if c1 == CLOSE_SCB then (t1, CLOSE_SCB)
      else if CheckSyn(t1, s.flags) == SND_RST then (Emit(t1, s.ackno, s.seqno, RST, 0), CLOSE_SCB)
      else RecvAccepted(t1, s)
  }

  /** get_sock_cb finds this control block for the segment. */
  predicate Matches(t: Tcb, s: Seg) {
    t.dport == 0 || (t.dport == s.dport && t.raddr == s.raddr)
  }

  /** tcp_recv of a segment whose checksum is right. */
  function Recv(t: Tcb, s: Seg): Tcb {
    if t.freed || !Matches(t, s) then t
    else if t.state != LISTEN && t.state != CLOSED && t.dport != s.dport then t
    else if t.state == CLOSED then t
    else if t.state == LISTEN then RecvListen(t, s).0
    else if t.state == SYN_SENT then RecvSynSent(t, s).0
    else
      var (t1, c) := RecvCore(t, s);
      if c == CLOSE_SCB then t1.(freed := true) else t1
  }

  /** The sends of a queue that was filled before, in order (tcp_send's loop). */
  function Flush(t: Tcb, q: seq<TxBuf>): Tcb
    decreases |q|
  {
    if |q| == 0 then t
    else Flush(Emit(t, q[0].seqno, t.rcvNxt, q[0].flags, q[0].len).(sndNxt := Add(t.sndNxt, q[0].len)), q[1..])
  }

  /** tcp_send of len bytes; the bool is its success. */
  function Send(t: Tcb, flags: Flags, len: nat): (Tcb, bool) {
    match t.state
    case LISTEN =>
      if t.raddr != 0 then
        var t1 := t.(sndInit := 0);
        (Emit(t1, 0, t1.rcvNxt, SYN, 0).(state := SYN_SENT, sndUnack := 0, sndNxt := 1), true)
      else (t, false)
    case SYN_SENT => (t.(txq := t.txq + [TxBuf(t.sndNxt, flags, len)]), true)
    case SYN_RCVD => (t.(txq := t.txq + [TxBuf(t.sndNxt, flags, len)]), true)
    case ESTAB => (Flush(t.(txq := []), t.txq + [TxBuf(t.sndNxt, flags, len)]), true)
    case _ => (t, false)
  }

  /** tcp_close; the bool says that the caller frees the control block. */
  function Close(t: Tcb): (Tcb, bool) {
    match t.state
    case SYN_RCVD =>
      if t.txq != [] then
        (Emit(t, t.sndNxt, t.rcvNxt, FIN_ACK, 0).(sndNxt := Add(t.sndNxt, 1), state := FIN_WAIT_1), false)
      else (t.(txq := t.txq + [TxBuf(t.sndNxt, FIN_ACK, 0)]), false)
    case ESTAB => (Emit(t, t.sndNxt, t.rcvNxt, FIN_ACK, 0).(sndNxt := Add(t.sndNxt, 1), state := FIN_WAIT_1), false)
    case CLOSE_WAIT => (Emit(t, t.sndNxt, t.rcvNxt, FIN_ACK, 0).(sndNxt := Add(t.sndNxt, 1), state := LAST_ACK), false)
    case _ => (t, true)
  }

  /** The text waiting in a receive queue. */
  function Text(q: seq<RxBuf>): seq<Byte>
    decreases |q|
  {
    if |q| == 0 then [] else q[0].text + Text(q[1..])
  }

  /**
   One pass of sockrecv's loop with room for n bytes: what is copied, what stays queued, and
   whether it goes round again.
   */
  function ReadPass(q: seq<RxBuf>, n: nat): (seq<Byte>, seq<RxBuf>, bool) {
    if |q| == 0 then ([], q, false)
    else if n > |q[0].text| then (q[0].text, q[1..], !q[0].psh)
    else (q[0].text[..n], [q[0].(text := q[0].text[n..])] + q[1..], false)
  }

  /** sockrecv's loop on a non-blocking socket. */
  function ReadQueue(q: seq<RxBuf>, n: nat): (seq<Byte>, seq<RxBuf>)
    decreases |q|
  {
    var (bytes, rest, again) := ReadPass(q, n);
    if !again then (bytes, rest)
    else
      var (more, rest') := ReadQueue(rest, n - |bytes|);
      (bytes + more, rest')
  }

  // ---------------------------------------------------------------- reading

  lemma TextEmpty()
    ensures Text([]) == []
  {
  }

  lemma {:induction false} TextConcat(q: seq<RxBuf>, r: seq<RxBuf>)
    ensures Text(q + r) == Text(q) + Text(r)
  {
    if |q| == 0 {
      assert q + r == r;
    } else {
      TextConcat(q[1..], r);
      assert (q + r)[1..] == q[1..] + r && (q + r)[0] == q[0];
      assert q[0].text + (Text(q[1..]) + Text(r)) == (q[0].text + Text(q[1..])) + Text(r);
    }
  }

  lemma SplitConcat<T>(a: seq<T>, n: nat, b: seq<T>)
    requires n <= |a|
    ensures a[..n] + (a[n..] + b) == a + b
  {
  }

  lemma TextCons(m: RxBuf, q: seq<RxBuf>)
    ensures Text([m] + q) == m.text + Text(q)
  {
    assert ([m] + q)[1..] == q;
  }

  lemma PassConserves(q: seq<RxBuf>, n: nat)
    ensures var (bytes, rest, again) := ReadPass(q, n);
            bytes + Text(rest) == Text(q) && |bytes| <= n && (again ==> |rest| < |q|)
  {
    hide Text;
    if |q| > 0 {
      var m := q[0];
      assert q == [m] + q[1..];
      TextCons(m, q[1..]);
      if n <= |m.text| {
        TextCons(m.(text := m.text[n..]), q[1..]);
        SplitConcat(m.text, n, Text(q[1..]));
      }
    }
  }

  /** A read takes text off the front of the queue and loses none of it. */
  lemma {:induction false} ReadConserves(q: seq<RxBuf>, n: nat)
    ensures var (bytes, rest) := ReadQueue(q, n); bytes + Text(rest) == Text(q) && |bytes| <= n
    decreases |q|
  {
    hide ReadPass, Text;
    PassConserves(q, n);
    var (bytes, rest, again) := ReadPass(q, n);
    if again {
      ReadConserves(rest, n - |bytes|);
      var (more, rest') := ReadQueue(rest, n - |bytes|);
      assert (bytes + more) + Text(rest') == bytes + (more + Text(rest'));
    }
  }

  /** The queue starts with used-up buffers, one of which had the PSH flag. */
  predicate Stalled(q: seq<RxBuf>)
    decreases |q|
  {
    |q| > 0 && q[0].text == [] && (q[0].psh || Stalled(q[1..]))
  }

  /**
   A read with room and text waiting returns nothing exactly when a used-up pushed
   buffer is in front. Reading exactly a buffer's length leaves such a buffer behind.
   */
  lemma {:induction false} ReadProgress(q: seq<RxBuf>, n: nat)
    requires n > 0 && Text(q) != []
    ensures ReadQueue(q, n).0 == [] <==> Stalled(q)
    decreases |q|
  {
    if |q| > 0 && q[0].text == [] && !q[0].psh {
      ReadProgress(q[1..], n);
    }
  }

  lemma ExactReadStalls(m: RxBuf, q: seq<RxBuf>)
    requires m.psh && m.text != []
    ensures var (bytes, rest) := ReadQueue([m] + q, |m.text|); bytes == m.text && Stalled(rest)
  {
    assert ([m] + q)[1..] == q;
  }

  // ---------------------------------------------------------------- runs

  /** The other end: its initial sequence number and all the text it ever sends. */
  datatype Peer = Peer(isn: nat, stream: seq<Byte>)

  predicate PeerOk(p: Peer) {
    p.isn < U32 && |p.stream| + 2 < U32
  }

  /** The sequence number of the stream's byte at an offset. */
  function SeqAt(p: Peer, off: nat): nat {
    (p.isn + 1 + off) % U32
  }

  /** A segment the peer sent, its text being the stream's from off on: perhaps late, again or out of order. */
  predicate FromPeer(p: Peer, s: Seg, off: nat) {
    if s.flags.syn then s.seqno == p.isn
    else
      s.text != [] || s.flags.fin ==>
        && s.seqno == SeqAt(p, off)
        && off + |s.text| <= |p.stream|
        && s.text == p.stream[off..off + |s.text|]
        && (s.flags.fin ==> off + |s.text| == |p.stream|)
  }

  /** A sockrecv call: none, or one with room for left more bytes. */
  datatype Call = Idle | Reading(left: nat, nonblock: bool)

  /**
   A connection: the control block, the sockrecv call in progress with the bytes it has taken, and
   whether the socket was closed. History: the bytes that calls returned, those that a call had taken
   when it returned -1, the number of bytes given to tcp_send, and whether the peer's FIN was taken.
   */
  datatype Conn = Conn(t: Tcb, call: Call, taken: seq<Byte>, closed: bool, reported: seq<Byte>, lost: seq<Byte>,
      sent: nat, fin: bool)

  datatype Action =
    | Arrive(s: Seg, off: nat)
    | StartRead(n: nat, nonblock: bool)
    | Pass
    | SendText(psh: bool, len: nat)
    | CloseIt
    | ConnectTo(raddr: nat, dport: nat)
    | ListenOn

  /** The application has the socket until it closes it; a call in progress goes on when the block is freed. */
  predicate Enabled(p: Peer, c: Conn, a: Action) {
    match a
    case Arrive(s, off) => !c.t.freed && (Matches(c.t, s) ==> FromPeer(p, s, off))
    case StartRead(_, _) => !c.t.freed && !c.closed && c.call.Idle?
    case Pass => c.call.Reading?
    case SendText(_, _) => !c.t.freed && !c.closed
    case CloseIt => !c.t.freed && !c.closed && c.call.Idle?
    case ConnectTo(_, _) => !c.t.freed && !c.closed && c.t.state == CLOSED
    case ListenOn => !c.t.freed && !c.closed && c.t.state == CLOSED
  }

  /** get_sock_cb finds the block, and it is not in CLOSE_WAIT. An unconnected block is in no table. */
  predicate Readable(t: Tcb) { !t.freed && t.state != CLOSED && t.state != CLOSE_WAIT }

  /** The call returns the number of bytes it took. */
  function Return(c: Conn): Conn { c.(call := Idle, reported := c.reported + c.taken, taken := []) }

  /** The call returns -1. */
  function Fail(c: Conn): Conn { c.(call := Idle, lost := c.lost + c.taken, taken := []) }

  /** One pass of sockrecv's loop. */
  function DoPass(c: Conn): Conn
    requires c.call.Reading?
  {
    if !Readable(c.t) then Fail(c)
    else if c.t.rxq == [] then (if c.call.nonblock then Return(c) else c)
    else
      var (bytes, rest, again) := ReadPass(c.t.rxq, c.call.left);
      var c1 := c.(t := c.t.(rxq := rest, rcvWnd := c.t.rcvWnd + |bytes|), taken := c.taken + bytes);
      if !again then Return(c1)
      else c1.(call := c.call.(left := if |bytes| <= c.call.left then c.call.left - |bytes| else 0))
  }

  /** A FIN is taken: the queue stays as it is and the next sequence number moves. */
  predicate TookFin(t: Tcb, t': Tcb) {
    !t.freed && Receiving(t.state) && t'.rxq == t.rxq && t'.rcvNxt != t.rcvNxt
  }

  function Arrived(c: Conn, s: Seg): Conn {
    c.(t := Recv(c.t, s), fin := c.fin || TookFin(c.t, Recv(c.t, s)))
  }

  function Do(c: Conn, a: Action): Conn {
    match a
    case Arrive(s, _) => Arrived(c, s)
    case StartRead(n, nonblock) => c.(call := Reading(n, nonblock), taken := [])
    case Pass => if c.call.Reading? then DoPass(c) else c
    case SendText(psh, len) =>
      var (t, ok) := Send(c.t, ACK.(psh := psh), len);
      c.(t := t, sent := if ok then c.sent + len else c.sent)
    case CloseIt => var (t, freed) := Close(c.t); c.(t := t.(freed := freed), closed := true)
    case ConnectTo(raddr, dport) => c.(t := Connect(c.t, raddr, dport))
    case ListenOn => c.(t := Listen(c.t))
  }

  const START: Conn := Conn(FRESH, Idle, [], false, [], [], 0, false)

  predicate ValidRun(p: Peer, c: Conn, run: seq<Action>)
    decreases |run|
  {
    |run| == 0 || (Enabled(p, c, run[0]) && ValidRun(p, Do(c, run[0]), run[1..]))
  }

  function Run(c: Conn, run: seq<Action>): Conn
    decreases |run|
  {
    if |run| == 0 then c else Run(Do(c, run[0]), run[1..])
  }

  /** All the text taken from the peer so far, in the order it arrived. */
  function Got(c: Conn): seq<Byte> { c.reported + c.lost + c.taken + Text(c.t.rxq) }

  /** Reading is over: the block is freed, or the peer's FIN was taken before the socket was closed. */
  predicate Over(c: Conn) { c.t.freed || c.t.state == CLOSE_WAIT || (c.closed && c.t.state == LAST_ACK) }

  predicate Unopened(st: SockState) { st == CLOSED || st == LISTEN || st == SYN_SENT }

  /** The connection's receiving half is open. */
  predicate Receiving(st: SockState) { st == SYN_RCVD || st == ESTAB || st == FIN_WAIT_1 || st == FIN_WAIT_2 }

  /** The calls: bytes are taken only by a call in progress, and after a loss no more are. */
  predicate CallInv(c: Conn) {
    && (c.call.Idle? ==> c.taken == [])
    && (c.closed ==> c.call.Idle?)
    && (c.lost != [] ==> c.taken == [] && Over(c))
  }

  /** The text taken is a prefix of the peer's stream, and the next sequence number expected is the one after it. */
  predicate StreamInv(p: Peer, c: Conn) {
    && CallInv(c)
    && Got(c) <= p.stream
    && (!c.t.freed && (Unopened(c.t.state) || c.t.state == SYN_RCVD) ==> Got(c) == [] && c.t.rxq == [])
    && (!c.t.freed && Receiving(c.t.state) ==> c.t.rcvInit == p.isn && c.t.rcvNxt == SeqAt(p, |Got(c)|))
    && (!c.t.freed && !Receiving(c.t.state) && !Unopened(c.t.state) ==> c.t.rcvNxt == SeqAt(p, |Got(c)| + 1))
    && (!c.t.freed ==> c.fin == (!Receiving(c.t.state) && !Unopened(c.t.state)))
  }

  /** The receive window and the text queued share one page, and the window is never shut. */
  predicate WindowInv(t: Tcb) {
    t.rcvWnd + |Text(t.rxq)| == WND && t.rcvWnd > 0
  }

  predicate HandshakeInv(t: Tcb) {
    && t.sndInit == 0
    && t.state != CLOSING && t.state != TIME_WAIT
    && ((t.state == CLOSED || t.state == LISTEN) && !t.freed ==> t.sndNxt == 0 && t.sndUnack == 0 && t.txq == [])
    && (t.state == SYN_SENT || t.state == SYN_RCVD ==> t.sndNxt == 1 && t.sndUnack == 0)
    && (t.state == SYN_SENT || t.state == SYN_RCVD || t.state == ESTAB ==> QueuedAt(t.txq, t.sndNxt))
  }

  /** Queued segments all carry the sequence number they were queued at. */
  predicate QueuedAt(q: seq<TxBuf>, from: nat) { forall i :: 0 <= i < |q| ==> q[i].seqno == from }

  function QueuedLen(q: seq<TxBuf>): nat
    decreases |q|
  {
    if |q| == 0 then 0 else q[0].len + QueuedLen(q[1..])
  }

  /** The FIN was sent. */
  predicate Closing(st: SockState) { st == FIN_WAIT_1 || st == FIN_WAIT_2 || st == LAST_ACK }

  /**
   What is acknowledged was sent, as long as less than 2^32 bytes were: SYN, text and FIN are
   all that is numbered.
   */
  predicate SendInv(c: Conn) {
    c.sent + 2 < U32 && !c.t.freed ==>
      && c.t.sndUnack <= c.t.sndNxt
      && c.t.sndNxt + QueuedLen(c.t.txq) <= c.sent + (if Closing(c.t.state) then 2 else 1)
  }

  lemma SeqAtInjective(p: Peer, i: nat, j: nat)
    requires PeerOk(p) && i < U32 && j < U32
    ensures SeqAt(p, i) == SeqAt(p, j) ==> i == j
  {
  }

  lemma SeqAtFirst(p: Peer)
    ensures SeqAt(p, 0) == Add(p.isn, 1)
  {
  }

  lemma SeqAtAdd(p: Peer, i: nat, k: nat)
    ensures Add(SeqAt(p, i), k) == SeqAt(p, i + k)
  {
  }

  /** What a segment can do to the fields the stream depends on. */
  lemma AckKeeps(t: Tcb, s: Seg)
    ensures var (t1, code) := CheckAck(t, s);
            && t1 == t.(state := t1.state, sndUnack := t1.sndUnack, sndWnd := t1.sndWnd, sndWl1 := t1.sndWl1,
                sndWl2 := t1.sndWl2)
            && (t1.state == t.state
                || (t.state == SYN_RCVD && t1.state == ESTAB && s.flags.ack && t.sndUnack < s.ackno <= t.sndNxt)
                || (t.state == FIN_WAIT_1 && t1.state == FIN_WAIT_2)
                || (t1.state == CLOSED && code == CLOSE_SCB))
            && (t.state == SYN_RCVD && t1.state == SYN_RCVD ==> t1 == t && (code == ERR || code == SND_RST))
  {
  }

  /** A segment leaves the receiving side alone, or adds the text it brings in order, or takes its FIN. */
  predicate Same(t: Tcb, t': Tcb) {
    && t'.rxq == t.rxq && t'.rcvNxt == t.rcvNxt && t'.rcvWnd == t.rcvWnd && t'.rcvInit == t.rcvInit
    && (Receiving(t'.state) <==> Receiving(t.state)) && (t'.state == SYN_RCVD ==> t.state == SYN_RCVD)
    && !Unopened(t.state) && !Unopened(t'.state)
    && (t.state == CLOSE_WAIT || t.state == LAST_ACK ==> t'.state == t.state)
  }

  predicate TakesText(t: Tcb, t': Tcb, s: Seg) {
    && s.text != [] && s.seqno == t.rcvNxt && t.rcvWnd > |s.text| && !s.flags.syn
    && Receiving(t.state) && Receiving(t'.state) && t'.state != SYN_RCVD
    && t'.rxq == t.rxq + [RxBuf(s.text, s.flags.psh)]
    && t'.rcvNxt == Add(t.rcvNxt, |s.text|)
    && t'.rcvWnd == t.rcvWnd - |s.text|
    && t'.rcvInit == t.rcvInit
  }

  /** The FIN leads to CLOSE_WAIT, or frees the block after a close. */
  predicate TakesFin(t: Tcb, t': Tcb, s: Seg) {
    && s.flags.fin && !s.flags.syn && Receiving(t.state) && (t'.state == CLOSE_WAIT || Receiving(t'.state))
    && !(s.text != [] && s.seqno == t.rcvNxt && t.rcvWnd > |s.text|)
    && t'.rxq == t.rxq && t'.rcvNxt == Add(t.rcvNxt, 1) && t'.rcvWnd == t.rcvWnd && t'.rcvInit == t.rcvInit
  }

  /** What a segment that does not free the block does to the receiving side, and one that does. */
  predicate Kept(t: Tcb, t': Tcb, s: Seg) {
    Same(t, t') || TakesText(t, t', s) || (TakesFin(t, t', s) && t'.state == CLOSE_WAIT)
  }

  predicate Freed(t: Tcb, t': Tcb, s: Seg) {
    t'.rxq == t.rxq && t'.rcvWnd == t.rcvWnd && (t'.rcvNxt == t.rcvNxt || TakesFin(t, t', s))
  }

  lemma TextKeeps(t: Tcb, s: Seg)
    ensures var (t', code) := RecvText(t, s);
            && t' == t.(state := t'.state, rcvNxt := t'.rcvNxt, rcvWnd := t'.rcvWnd, rxq := t'.rxq, out := t'.out)
            && (t'.state == t.state || ((t.state == SYN_RCVD || t.state == ESTAB) && t'.state == CLOSE_WAIT))
  {
  }

  lemma TextCases(t: Tcb, s: Seg)
    requires !Unopened(t.state) && t.state != SYN_RCVD && !s.flags.syn
    ensures var (t', code) := RecvText(t, s);
            && t'.freed == t.freed
            && (if code == CLOSE_SCB then Freed(t, t', s) else Kept(t, t', s))
  {
    hide Add;
  }

  lemma AcceptedCases(t: Tcb, s: Seg)
    requires Synchronized(t.state) && !s.flags.syn
    ensures var (t', code) := RecvAccepted(t, s);
            && t'.freed == t.freed
            && (if code == CLOSE_SCB then Freed(t, t', s) else Kept(t, t', s))
  {
    hide CheckAck, RecvText, Add;
    AckKeeps(t, s);
    var t1 := CheckAck(t, s).0;
    if !Unopened(t1.state) && t1.state != SYN_RCVD {
      TextCases(t1, s);
    }
  }

  /** The handshake binds the connection to the peer's initial sequence number. */
  predicate Opens(t: Tcb, t': Tcb, s: Seg) {
    && s.flags.syn && t'.rxq == t.rxq && t'.rcvInit == s.seqno && t'.rcvNxt == Add(s.seqno, 1)
    && ((t.state == LISTEN && t'.state == SYN_RCVD && t'.rcvWnd == WND)
        || (t.state == SYN_SENT && t'.state == ESTAB && t'.rcvWnd == t.rcvWnd))
  }

  predicate StaysUnopened(t: Tcb, t': Tcb) {
    Unopened(t.state) && t'.state == t.state && t'.rxq == t.rxq && t'.rcvWnd == t.rcvWnd
  }

  lemma CoreCases(t: Tcb, s: Seg)
    requires Synchronized(t.state)
    ensures var (t', code) := RecvCore(t, s);
            && t'.freed == t.freed
            && (if code == CLOSE_SCB then Freed(t, t', s) else Kept(t, t', s))
  {
    hide RecvAccepted;
    if !s.flags.syn {
      AcceptedCases(t, s);
    }
  }

  /** Every arriving segment does one of these to the receiving side. */
  lemma RecvCases(t: Tcb, s: Seg)
    requires !t.freed
    ensures var t' := Recv(t, s);
            || t' == t
            || (t'.freed && Matches(t, s) && Freed(t, t', s))
            || (!t'.freed && Matches(t, s) && (Kept(t, t', s) || Opens(t, t', s) || StaysUnopened(t, t')))
  {
    hide RecvCore;
    if Synchronized(t.state) {
      CoreCases(t, s);
    }
  }

  // ---------------------------------------------------------------- the stream

  lemma TextAppend(q: seq<RxBuf>, m: RxBuf)
    ensures Text(q + [m]) == Text(q) + m.text
  {
    TextConcat(q, [m]);
    assert Text([m]) == m.text + Text([]) == m.text;
  }

  lemma PrefixExtends(got: seq<Byte>, text: seq<Byte>, stream: seq<Byte>)
    requires got <= stream && |got| + |text| <= |stream| && text == stream[|got|..|got| + |text|]
    ensures got + text <= stream
  {
  }

  lemma TextArrives(p: Peer, c: Conn, s: Seg, off: nat, t': Tcb)
    requires PeerOk(p) && StreamInv(p, c) && !c.t.freed && FromPeer(p, s, off) && TakesText(c.t, t', s) && !t'.freed
    ensures StreamInv(p, c.(t := t'))
  {
    hide Text, SeqAt, Add;
    SeqAtInjective(p, off, |Got(c)|);
    TextAppend(c.t.rxq, RxBuf(s.text, s.flags.psh));
    assert Got(c.(t := t')) == Got(c) + s.text;
    PrefixExtends(Got(c), s.text, p.stream);
    SeqAtAdd(p, off, |s.text|);
  }

  lemma ArriveStream(p: Peer, c: Conn, s: Seg, off: nat)
    requires PeerOk(p) && StreamInv(p, c) && Enabled(p, c, Arrive(s, off))
    ensures StreamInv(p, Arrived(c, s))
  {
    hide Recv, SeqAt, Add;
    RecvCases(c.t, s);
    var t' := Recv(c.t, s);
    assert Got(Arrived(c, s)) == Got(c.(t := t'));
    if !t'.freed && t' != c.t {
      if TakesText(c.t, t', s) {
        TextArrives(p, c, s, off, t');
        assert |t'.rxq| > |c.t.rxq|;
      } else if TakesFin(c.t, t', s) {
        SeqAtAdd(p, |Got(c)|, 1);
        SeqAtInjective(p, |Got(c)|, |Got(c)| + 1);
      } else if Opens(c.t, t', s) {
        SeqAtFirst(p);
        assert Got(c.(t := t')) == [];
      }
    }
  }

  /** A pass moves bytes from the queue to the call, and from the call to what is reported or lost. */
  lemma PassGot(c: Conn)
    requires c.call.Reading? && CallInv(c) && (c.t.state == CLOSED && !c.t.freed ==> c.taken == [])
    ensures Got(DoPass(c)) == Got(c) && CallInv(DoPass(c))
  {
    hide Text, ReadPass;
    PassConserves(c.t.rxq, c.call.left);
    var (bytes, rest, again) := ReadPass(c.t.rxq, c.call.left);
    if Readable(c.t) && c.t.rxq != [] {
      assert (c.taken + bytes) + Text(rest) == c.taken + Text(c.t.rxq);
      assert c.reported + (c.taken + bytes) + Text(rest) == c.reported + c.taken + Text(c.t.rxq);
    }
  }

  lemma PassStream(p: Peer, c: Conn)
    requires StreamInv(p, c) && c.call.Reading?
    ensures StreamInv(p, DoPass(c))
  {
    hide Text, SeqAt, ReadPass, Got;
    UnopenedEmpty(c);
    PassGot(c);
  }

  lemma UnopenedEmpty(c: Conn)
    ensures Got(c) == [] ==> c.taken == [] && c.lost == []
  {
  }

  lemma StepStream(p: Peer, c: Conn, a: Action)
    requires PeerOk(p) && StreamInv(p, c) && Enabled(p, c, a)
    ensures StreamInv(p, Do(c, a))
  {
    hide Text, Recv, SeqAt, Flush, DoPass;
    match a
    case Arrive(s, off) => ArriveStream(p, c, s, off);
    case Pass => PassStream(p, c);
    case SendText(psh, len) => SendKeeps(c.t, ACK.(psh := psh), len);
    case _ =>
  }

  /** What tcp_send leaves alone. */
  lemma SendKeeps(t: Tcb, flags: Flags, len: nat)
    ensures var t' := Send(t, flags, len).0;
            && t' == t.(state := t'.state, sndNxt := t'.sndNxt, sndInit := t'.sndInit, sndUnack := t'.sndUnack,
                txq := t'.txq, out := t'.out)
            && (t'.state == t.state || (t.state == LISTEN && t'.state == SYN_SENT))
  {
    hide Flush;
    FlushKeeps(t.(txq := []), t.txq + [TxBuf(t.sndNxt, flags, len)]);
  }

  lemma {:induction false} FlushKeeps(t: Tcb, q: seq<TxBuf>)
    ensures var t' := Flush(t, q); t' == t.(sndNxt := t'.sndNxt, out := t'.out)
    ensures t.sndNxt + QueuedLen(q) < U32 ==> Flush(t, q).sndNxt == t.sndNxt + QueuedLen(q)
    decreases |q|
  {
    if |q| > 0 {
      FlushKeeps(Emit(t, q[0].seqno, t.rcvNxt, q[0].flags, q[0].len).(sndNxt := Add(t.sndNxt, q[0].len)), q[1..]);
    }
  }

  lemma {:induction false} RunStream(p: Peer, c: Conn, run: seq<Action>)
    requires PeerOk(p) && StreamInv(p, c) && ValidRun(p, c, run)
    ensures StreamInv(p, Run(c, run))
    decreases |run|
  {
    hide StreamInv, Enabled, Do;
    if |run| > 0 {
      StepStream(p, c, run[0]);
      RunStream(p, Do(c, run[0]), run[1..]);
    }
  }

  /**
   In-order delivery: whatever segments of the peer's stream are lost, repeated or
   reordered, the bytes that calls returned, the bytes a call lost, the bytes a call in
   progress has taken and the bytes queued are together a prefix of the stream, in this
   order, and until a FIN is taken the next sequence number is the one after that
   prefix. As long as no call lost bytes, what is returned, taken and queued is a prefix.
   The numbers may wrap; the stream is shorter than 2^32 bytes.
   */
  lemma StreamDelivery(p: Peer, run: seq<Action>)
    requires PeerOk(p) && ValidRun(p, START, run)
    ensures var c := Run(START, run);
            && c.reported + c.lost + c.taken + Text(c.t.rxq) <= p.stream
            && (c.lost == [] ==> c.reported + c.taken + Text(c.t.rxq) <= p.stream)
            && (!c.t.freed && Receiving(c.t.state) ==>
                  && c.t.rcvInit == p.isn && c.lost == []
                  && c.t.rcvNxt == (p.isn + 1 + |c.reported + c.taken + Text(c.t.rxq)|) % U32)
  {
    hide Enabled, Do, Text, StreamInv, SeqAt, WindowInv, HandshakeInv, SendInv;
    StartInv(p);
    RunStream(p, START, run);
    StreamParts(p, Run(START, run));
  }

  lemma StreamParts(p: Peer, c: Conn)
    requires StreamInv(p, c)
    ensures c.reported + c.lost + c.taken + Text(c.t.rxq) <= p.stream
    ensures c.lost == [] ==> c.reported + c.taken + Text(c.t.rxq) <= p.stream
    ensures !c.t.freed && Receiving(c.t.state) ==>
              && c.t.rcvInit == p.isn && c.lost == []
              && c.t.rcvNxt == (p.isn + 1 + |c.reported + c.taken + Text(c.t.rxq)|) % U32
  {
    hide Text;
    if c.lost == [] { assert Got(c) == c.reported + c.taken + Text(c.t.rxq); }
  }

  lemma StartInv(p: Peer)
    ensures StreamInv(p, START) && WindowInv(START.t) && HandshakeInv(START.t) && SendInv(START)
  {
  }

  // ---------------------------------------------------------------- window, handshake and acknowledgements

  lemma ArriveWindow(t: Tcb, s: Seg)
    requires WindowInv(t) && !t.freed && (Unopened(t.state) ==> t.rxq == [])
    ensures WindowInv(Recv(t, s))
  {
    hide Recv, Add;
    RecvCases(t, s);
    var t' := Recv(t, s);
    if TakesText(t, t', s) {
      TextAppend(t.rxq, RxBuf(s.text, s.flags.psh));
    }
  }

  lemma StepWindow(p: Peer, c: Conn, a: Action)
    requires StreamInv(p, c) && WindowInv(c.t) && Enabled(p, c, a)
    ensures WindowInv(Do(c, a).t)
  {
    hide Text, Recv, SeqAt, Flush, ReadPass;
    assert Text([]) == [] by { TextEmpty(); }
    match a
    case Arrive(s, off) => ArriveWindow(c.t, s);
    case Pass => PassConserves(c.t.rxq, c.call.left);
    case SendText(psh, len) => SendKeeps(c.t, ACK.(psh := psh), len);
    case _ =>
  }

  lemma {:induction false} RunWindow(p: Peer, c: Conn, run: seq<Action>)
    requires PeerOk(p) && StreamInv(p, c) && WindowInv(c.t) && ValidRun(p, c, run)
    ensures WindowInv(Run(c, run).t)
    decreases |run|
  {
    hide StreamInv, Enabled, Do, WindowInv;
    if |run| > 0 {
      StepStream(p, c, run[0]);
      StepWindow(p, c, run[0]);
      RunWindow(p, Do(c, run[0]), run[1..]);
    }
  }

  /** The receive window and the bytes queued always make up one page, and the window never reaches 0. */
  lemma WindowConserved(p: Peer, run: seq<Action>)
    requires PeerOk(p) && ValidRun(p, START, run)
    ensures var t := Run(START, run).t; t.rcvWnd + |Text(t.rxq)| == 4096 && t.rcvWnd > 0
  {
    hide Enabled, Do, Text, StreamInv;
    StartInv(p);
    RunWindow(p, START, run);
  }

  /** tcp_recv_core keeps the send side and only enters ESTAB from SYN_RCVD on an acknowledgement of the SYN. */
  predicate CoreHandshake(t: Tcb, t': Tcb, s: Seg) {
    && t'.sndInit == t.sndInit && t'.sndNxt == t.sndNxt && t'.txq == t.txq
    && (t'.state == SYN_RCVD ==> t.state == SYN_RCVD && t'.sndUnack == t.sndUnack)
    && t'.state != SYN_SENT && t'.state != CLOSING && t'.state != TIME_WAIT
    && (t'.state == ESTAB && t.state != ESTAB ==>
        t.state == SYN_RCVD && s.flags.ack && t.sndUnack < s.ackno <= t.sndNxt)
  }

  lemma AcceptedHandshake(t: Tcb, s: Seg)
    requires Synchronized(t.state) && t.state != CLOSING && t.state != TIME_WAIT
    ensures var (t', code) := RecvAccepted(t, s);
            CoreHandshake(t, t', s) && (t'.state == CLOSED || t'.state == LISTEN ==> code == CLOSE_SCB)
  {
    hide CheckAck, RecvText;
    AckKeeps(t, s);
    TextKeeps(CheckAck(t, s).0, s);
  }

  lemma CoreKeepsHandshake(t: Tcb, s: Seg)
    requires Synchronized(t.state) && t.state != CLOSING && t.state != TIME_WAIT
    ensures var (t', code) := RecvCore(t, s);
            CoreHandshake(t, t', s) && (t'.state == CLOSED || t'.state == LISTEN ==> code == CLOSE_SCB)
  {
    hide SeqValid, RecvAccepted;
    AcceptedHandshake(t, s);
  }

  lemma ArriveHandshake(t: Tcb, s: Seg)
    requires HandshakeInv(t) && !t.freed
    ensures HandshakeInv(Recv(t, s))
    ensures t.state != ESTAB && Recv(t, s).state == ESTAB ==> s.flags.ack && s.ackno == t.sndInit + 1
    ensures t.state == SYN_SENT ==> Recv(t, s).state == SYN_SENT || Recv(t, s).state == ESTAB
  {
    hide RecvCore;
    if Synchronized(t.state) {
      CoreKeepsHandshake(t, s);
    }
  }

  lemma StepHandshake(p: Peer, c: Conn, a: Action)
    requires HandshakeInv(c.t) && Enabled(p, c, a)
    ensures HandshakeInv(Do(c, a).t)
  {
    hide Recv, Flush;
    match a
    case Arrive(s, off) => ArriveHandshake(c.t, s);
    case SendText(psh, len) => FlushKeeps(c.t.(txq := []), c.t.txq + [TxBuf(c.t.sndNxt, ACK.(psh := psh), len)]);
    case _ =>
  }

  lemma {:induction false} RunHandshake(p: Peer, c: Conn, run: seq<Action>)
    requires HandshakeInv(c.t) && ValidRun(p, c, run)
    ensures HandshakeInv(Run(c, run).t)
    decreases |run|
  {
    hide HandshakeInv, Enabled, Do;
    if |run| > 0 {
      StepHandshake(p, c, run[0]);
      RunHandshake(p, Do(c, run[0]), run[1..]);
    }
  }

  /**
   In every run, ESTAB is entered only by a segment that acknowledges exactly the SYN,
   tcp_recv_syn_sent never takes its SYN_RCVD branch, and CLOSING and TIME_WAIT are
   never reached.
   */
  lemma Handshake(p: Peer, run: seq<Action>, a: Action)
    requires PeerOk(p) && ValidRun(p, START, run) && Enabled(p, Run(START, run), a)
    ensures var t := Run(START, run).t; var t' := Do(Run(START, run), a).t;
            && t.state != CLOSING && t.state != TIME_WAIT
            && (t.state != ESTAB && t'.state == ESTAB ==> a.Arrive? && a.s.flags.ack && a.s.ackno == t.sndInit + 1)
            && (t.state == SYN_SENT && a.Arrive? ==> t'.state == SYN_SENT || t'.state == ESTAB)
  {
    hide Recv, Flush, StreamInv, SendInv, WindowInv, Text, ReadPass, Got;
    StartInv(p);
    RunHandshake(p, START, run);
    var t := Run(START, run).t;
    match a
    case Arrive(s, off) => ArriveHandshake(t, s);
    case SendText(psh, len) => SendKeeps(t, ACK.(psh := psh), len);
    case _ =>
  }

  // ---------------------------------------------------------------- the sending half

  lemma QueuedLenEmpty()
    ensures QueuedLen([]) == 0
  {
  }

  lemma {:induction false} QueuedLenConcat(q: seq<TxBuf>, r: seq<TxBuf>)
    ensures QueuedLen(q + r) == QueuedLen(q) + QueuedLen(r)
  {
    if |q| == 0 {
      assert q + r == r;
    } else {
      QueuedLenConcat(q[1..], r);
      assert (q + r)[1..] == q[1..] + r;
    }
  }

  /** An arriving segment moves unack only up to what was sent, and sends no text. */
  predicate CoreSends(t: Tcb, t': Tcb) {
    && t'.sndNxt == t.sndNxt && t'.txq == t.txq
    && (t'.sndUnack == t.sndUnack || t'.sndUnack <= t'.sndNxt)
    && (Closing(t.state) && t'.state != CLOSED ==> Closing(t'.state))
  }

  lemma AcceptedSends(t: Tcb, s: Seg)
    ensures var (t', code) := RecvAccepted(t, s);
            CoreSends(t, t') && (t'.state == CLOSED && t.state != CLOSED ==> code == CLOSE_SCB)
  {
    hide CheckAck, RecvText;
    AckKeeps(t, s);
    AckBounded(t, s);
    TextKeeps(CheckAck(t, s).0, s);
  }

  lemma AckBounded(t: Tcb, s: Seg)
    ensures var t1 := CheckAck(t, s).0; t1.sndUnack == t.sndUnack || t1.sndUnack <= t.sndNxt
  {
  }

  lemma ArriveSends(c: Conn, s: Seg)
    requires SendInv(c) && HandshakeInv(c.t) && !c.t.freed
    ensures SendInv(Arrived(c, s))
  {
    hide RecvAccepted, QueuedLen;
    QueuedLenEmpty();
    AcceptedSends(c.t, s);
  }

  lemma StepSends(p: Peer, c: Conn, a: Action)
    requires SendInv(c) && HandshakeInv(c.t) && Enabled(p, c, a)
    ensures SendInv(Do(c, a))
  {
    hide Recv, QueuedLen, Flush;
    QueuedLenEmpty();
    match a
    case Arrive(s, off) => ArriveSends(c, s);
    case SendText(psh, len) =>
      var m := TxBuf(c.t.sndNxt, ACK.(psh := psh), len);
      FlushKeeps(c.t.(txq := []), c.t.txq + [m]);
      QueuedLenConcat(c.t.txq, [m]);
      QueuedLenOne(m);
    case CloseIt =>
      var m := TxBuf(c.t.sndNxt, FIN_ACK, 0);
      QueuedLenConcat(c.t.txq, [m]);
      QueuedLenOne(m);
    case _ =>
  }

  lemma QueuedLenOne(m: TxBuf)
    ensures QueuedLen([m]) == m.len
  {
    assert [m][1..] == [];
  }

  lemma {:induction false} RunSends(p: Peer, c: Conn, run: seq<Action>)
    requires SendInv(c) && HandshakeInv(c.t) && ValidRun(p, c, run)
    ensures SendInv(Run(c, run))
    decreases |run|
  {
    hide HandshakeInv, SendInv, Enabled, Do;
    if |run| > 0 {
      StepHandshake(p, c, run[0]);
      StepSends(p, c, run[0]);
      RunSends(p, Do(c, run[0]), run[1..]);
    }
  }

  /** In every run that sends fewer than 2^32 - 2 bytes, snd.unack <= snd.nxt_seq. */
  lemma UnackBehind(p: Peer, run: seq<Action>)
    requires ValidRun(p, START, run)
    ensures var c := Run(START, run); c.sent + 2 < U32 && !c.t.freed ==> c.t.sndUnack <= c.t.sndNxt
  {
    hide Enabled, Do, HandshakeInv;
    StartInv(p);
    RunSends(p, START, run);
  }

  /** The segments sent cover consecutive sequence numbers from a number on. */
  predicate Contiguous(outs: seq<Out>, from: nat)
    decreases |outs|
  {
    |outs| == 0 || (outs[0].seqno == from && Contiguous(outs[1..], from + outs[0].len))
  }

  /** The segments one tcp_send sends. */
  function SentBy(t: Tcb, flags: Flags, len: nat): seq<Out>
    requires t.state == ESTAB
  {
    var t' := Send(t, flags, len).0;
    if |t.out| <= |t'.out| then t'.out[|t.out|..] else []
  }

  function Outs(t: Tcb, q: seq<TxBuf>): seq<Out>
    decreases |q|
  {
    if |q| == 0 then []
    else [Out(q[0].seqno, if q[0].flags.ack then t.rcvNxt else 0, t.rcvWnd, q[0].flags, q[0].len)] + Outs(t, q[1..])
  }

  lemma {:induction false} OutsFrame(t: Tcb, t': Tcb, q: seq<TxBuf>)
    requires t.rcvNxt == t'.rcvNxt && t.rcvWnd == t'.rcvWnd
    ensures Outs(t, q) == Outs(t', q)
    decreases |q|
  {
    if |q| > 0 {
      OutsFrame(t, t', q[1..]);
    }
  }

  lemma {:induction false} FlushOut(t: Tcb, q: seq<TxBuf>)
    ensures Flush(t, q).out == t.out + Outs(t, q)
    decreases |q|
  {
    if |q| == 0 {
      assert t.out + [] == t.out;
    } else {
      var t1 := Emit(t, q[0].seqno, t.rcvNxt, q[0].flags, q[0].len).(sndNxt := Add(t.sndNxt, q[0].len));
      FlushOut(t1, q[1..]);
      OutsFrame(t, t1, q[1..]);
      assert t.out + Outs(t, q) == t1.out + Outs(t, q[1..]);
    }
  }

  predicate AllEmpty(q: seq<TxBuf>) { forall i :: 0 <= i < |q| ==> q[i].len == 0 }

  lemma {:induction false} OutsContiguous(t: Tcb, q: seq<TxBuf>, from: nat)
    requires |q| > 0 && QueuedAt(q, from)
    ensures Contiguous(Outs(t, q), from) <==> AllEmpty(q[..|q| - 1])
    decreases |q|
  {
    var rest := q[1..];
    var outs := Outs(t, q);
    assert outs[1..] == Outs(t, rest);
    if |rest| > 0 {
      assert rest[..|rest| - 1] == q[..|q| - 1][1..];
      if q[0].len == 0 {
        OutsContiguous(t, rest, from);
        assert q[..|q| - 1] == [q[0]] + rest[..|rest| - 1];
      } else {
        assert q[..|q| - 1][0] == q[0];
        assert Outs(t, rest)[0].seqno == rest[0].seqno == q[1].seqno == from;
      }
    }
  }

  lemma FlushContiguous(t: Tcb, flags: Flags, len: nat)
    requires t.state == ESTAB && QueuedAt(t.txq, t.sndNxt)
    ensures Contiguous(SentBy(t, flags, len), t.sndNxt) <==> AllEmpty(t.txq)
  {
    var m := TxBuf(t.sndNxt, flags, len);
    var q := t.txq + [m];
    FlushOut(t.(txq := []), q);
    OutsFrame(t, t.(txq := []), q);
    OutsContiguous(t, q, t.sndNxt);
    assert q[..|q| - 1] == t.txq;
    assert SentBy(t, flags, len) == Outs(t, q);
  }

  /**
   In every run, the segments a tcp_send puts on an established connection cover
   consecutive sequence numbers exactly when no text was queued before the connection
   was established: text queued then all has the sequence number 1.
   */
  lemma SendContiguous(p: Peer, run: seq<Action>, psh: bool, len: nat)
    requires ValidRun(p, START, run) && Run(START, run).t.state == ESTAB
    ensures var t := Run(START, run).t;
            Contiguous(SentBy(t, ACK.(psh := psh), len), t.sndNxt) <==> AllEmpty(t.txq)
  {
    hide SentBy, Contiguous, AllEmpty, Do, Enabled;
    StartInv(p);
    RunHandshake(p, START, run);
    FlushContiguous(Run(START, run).t, ACK.(psh := psh), len);
  }

  // ---------------------------------------------------------------- acknowledgements

  /** An acknowledgement covers at most the SYN and n bytes or FINs after it. */
  predicate AcksAtMost(p: Peer, o: Out, n: nat) {
    o.flags.ack && !o.flags.rst ==> exists k: nat :: k <= n && o.ackno == SeqAt(p, k)
  }

  /** The numbers taken: the text, and one for a FIN. */
  function InHand(c: Conn): nat { |Got(c)| + (if c.fin then 1 else 0) }

  /** The FIN was acknowledged with the number after the text taken. */
  predicate FinAcked(p: Peer, c: Conn) {
    exists i :: 0 <= i < |c.t.out| && IsAck(c.t.out[i]) && c.t.out[i].ackno == SeqAt(p, |Got(c)| + 1)
  }

  predicate IsAck(o: Out) { o.flags.ack && !o.flags.rst }

  predicate AcksInv(p: Peer, c: Conn) {
    && (forall i :: 0 <= i < |c.t.out| ==> AcksAtMost(p, c.t.out[i], InHand(c)))
    && (c.fin ==> FinAcked(p, c))
  }

  /** Every acknowledgement sent by a step carries the next sequence number after the step. */
  predicate NewAcks(t: Tcb, t': Tcb) {
    && t.out <= t'.out
    && (t'.out == t.out || (|t'.out| == |t.out| + 1 && AckTrue(t', t'.out[|t.out|])))
  }

  predicate AckTrue(t: Tcb, o: Out) {
    o.flags.ack && !o.flags.rst ==> o.ackno == t.rcvNxt && !Unopened(t.state)
  }

  lemma TextAcks(t: Tcb, s: Seg)
    requires !Unopened(t.state)
    ensures var (t', code) := RecvText(t, s); NewAcks(t, t') && (code == CLOSE_SCB ==>
        t'.rcvNxt == t.rcvNxt || t'.rcvNxt == Add(t.rcvNxt, 1))
  {
    hide Add;
  }

  lemma AcceptedAcks(t: Tcb, s: Seg)
    requires Synchronized(t.state)
    ensures var (t', code) := RecvAccepted(t, s); NewAcks(t, t') && (code == CLOSE_SCB ==>
        t'.rcvNxt == t.rcvNxt || t'.rcvNxt == Add(t.rcvNxt, 1))
    ensures RecvAccepted(t, s).0.freed == t.freed
  {
    hide CheckAck, RecvText, Add;
    AckKeeps(t, s);
    var t1 := CheckAck(t, s).0;
    if !Unopened(t1.state) {
      TextAcks(t1, s);
      TextKeeps(t1, s);
    }
  }

  lemma RecvAcks(t: Tcb, s: Seg)
    requires !t.freed
    ensures var t' := Recv(t, s);
            NewAcks(t, t') && (t'.freed ==> t'.rcvNxt == t.rcvNxt || t'.rcvNxt == Add(t.rcvNxt, 1))
  {
    hide RecvAccepted, Add, SeqValid;
    if Synchronized(t.state) {
      AcceptedAcks(t, s);
    }
  }

  lemma NewAcksKeep(p: Peer, c: Conn, c': Conn)
    requires AcksInv(p, c) && InHand(c) <= InHand(c')
    requires c.t.out <= c'.t.out
    requires forall i :: |c.t.out| <= i < |c'.t.out| ==> AcksAtMost(p, c'.t.out[i], InHand(c'))
    requires c'.fin ==> if c.fin then |Got(c')| == |Got(c)| else FinAcked(p, c')
    ensures AcksInv(p, c')
  {
    hide InHand, SeqAt, Got;
    if c.fin && c'.fin {
      var i :| 0 <= i < |c.t.out| && IsAck(c.t.out[i]) && c.t.out[i].ackno == SeqAt(p, |Got(c)| + 1);
      assert c'.t.out[i] == c.t.out[i];
    }
    forall i | 0 <= i < |c'.t.out| ensures AcksAtMost(p, c'.t.out[i], InHand(c')) {
      if i < |c.t.out| {
        assert c'.t.out[i] == c.t.out[i];
        assert AcksAtMost(p, c.t.out[i], InHand(c));
      }
    }
  }

  /** The next sequence number is one that may be acknowledged. */
  lemma NextInHand(p: Peer, c: Conn, o: Out)
    requires StreamInv(p, c) && !c.t.freed && AckTrue(c.t, o)
    ensures AcksAtMost(p, o, InHand(c))
  {
    hide SeqAt, Got;
  }

  lemma ArriveAcks(p: Peer, c: Conn, s: Seg, off: nat)
    requires PeerOk(p) && StreamInv(p, c) && AcksInv(p, c) && Enabled(p, c, Arrive(s, off))
    ensures AcksInv(p, Arrived(c, s))
  {
    hide Recv, AcksInv, SeqAt, Text, Add, StreamInv, AcksAtMost, Got, FinAcked;
    var c' := Arrived(c, s);
    RecvAcks(c.t, s);
    if TookFin(c.t, c'.t) { FinIsAcked(p, c, s, off); }
    GotGrows(p, c, s, off);
    if |c'.t.out| > |c.t.out| {
      if c'.t.freed {
        FreedAck(p, c, c', c'.t.out[|c.t.out|]);
      } else {
        ArriveStream(p, c, s, off);
        NextInHand(p, c', c'.t.out[|c.t.out|]);
      }
    }
    NewAcksKeep(p, c, c');
  }

  /** Whenever a FIN is taken, it is acknowledged at once. */
  lemma FinIsAcked(p: Peer, c: Conn, s: Seg, off: nat)
    requires PeerOk(p) && StreamInv(p, c) && Enabled(p, c, Arrive(s, off)) && TookFin(c.t, Recv(c.t, s))
    ensures FinAcked(p, Arrived(c, s))
  {
    hide Recv, SeqAt, Text, Add, FromPeer, Got;
    var c' := Arrived(c, s);
    FinCases(p, c, s, off);
    FinSends(c.t, s);
    SeqAtAdd(p, |Got(c)|, 1);
    GotGrows(p, c, s, off);
    SameQueue(c, c');
    assert IsAck(c'.t.out[|c.t.out|]) && c'.t.out[|c.t.out|].ackno == SeqAt(p, |Got(c')| + 1);
  }

  lemma SameQueue(c: Conn, c': Conn)
    requires c'.reported == c.reported && c'.lost == c.lost && c'.taken == c.taken && c'.t.rxq == c.t.rxq
    ensures Got(c') == Got(c)
  {
  }

  lemma FinSends(t: Tcb, s: Seg)
    requires TookFin(t, Recv(t, s)) && TakesFin(t, Recv(t, s), s)
    ensures var t' := Recv(t, s);
            |t'.out| == |t.out| + 1 && IsAck(t'.out[|t.out|]) && t'.out[|t.out|].ackno == t'.rcvNxt
  {
    hide SeqValid, Add, CheckAck;
    AckKeeps(t, s);
  }

  lemma FreedAck(p: Peer, c: Conn, c': Conn, o: Out)
    requires StreamInv(p, c) && !c.t.freed && c'.t.freed && Got(c') == Got(c) && AckTrue(c'.t, o)
    requires c'.t.rcvNxt == c.t.rcvNxt || (c'.t.rcvNxt == Add(c.t.rcvNxt, 1) && c'.fin)
    requires o.flags.ack ==> Receiving(c.t.state)
    ensures AcksAtMost(p, o, InHand(c'))
  {
    hide SeqAt, Got, Add;
    SeqAtAdd(p, |Got(c)|, 1);
  }

  lemma GotGrows(p: Peer, c: Conn, s: Seg, off: nat)
    requires PeerOk(p) && StreamInv(p, c) && Enabled(p, c, Arrive(s, off))
    ensures var c' := Arrived(c, s);
            && InHand(c) <= InHand(c') && (c'.t.freed || c.fin ==> Got(c') == Got(c))
            && (c'.t.freed ==> c'.t.rcvNxt == c.t.rcvNxt || c'.fin)
    ensures var c' := Arrived(c, s);
            c'.t.freed && |c'.t.out| > |c.t.out| && c'.t.out[|c.t.out|].flags.ack ==> Receiving(c.t.state)
  {
    hide Recv, SeqAt, Text, Add;
    RecvCases(c.t, s);
    var t' := Recv(c.t, s);
    if TakesText(c.t, t', s) {
      TextAppend(c.t.rxq, RxBuf(s.text, s.flags.psh));
    }
    FreedOut(c.t, s);
  }

  lemma FreedOut(t: Tcb, s: Seg)
    requires !t.freed
    ensures var t' := Recv(t, s);
            t'.freed && |t'.out| > |t.out| && t'.out[|t.out|].flags.ack ==> Receiving(t.state)
  {
    hide SeqValid, Add, CheckAck;
    AckKeeps(t, s);
  }

  lemma {:induction false} FlushAcks(t: Tcb, q: seq<TxBuf>)
    ensures t.out <= Flush(t, q).out
    ensures forall i :: |t.out| <= i < |Flush(t, q).out| && Flush(t, q).out[i].flags.ack ==>
        Flush(t, q).out[i].ackno == t.rcvNxt
    decreases |q|
  {
    if |q| > 0 {
      FlushAcks(Emit(t, q[0].seqno, t.rcvNxt, q[0].flags, q[0].len).(sndNxt := Add(t.sndNxt, q[0].len)), q[1..]);
    }
  }

  lemma SendAcks(p: Peer, c: Conn, psh: bool, len: nat)
    requires StreamInv(p, c) && AcksInv(p, c) && !c.t.freed
    ensures AcksInv(p, Do(c, SendText(psh, len)))
  {
    hide AcksInv, SeqAt, Text, StreamInv, AcksAtMost, Flush;
    var c' := Do(c, SendText(psh, len));
    var flags := ACK.(psh := psh);
    SendKeeps(c.t, flags, len);
    FlushAcks(c.t.(txq := []), c.t.txq + [TxBuf(c.t.sndNxt, flags, len)]);
    FlushKeeps(c.t.(txq := []), c.t.txq + [TxBuf(c.t.sndNxt, flags, len)]);
    forall i | |c.t.out| <= i < |c'.t.out| ensures AcksAtMost(p, c'.t.out[i], InHand(c')) {
      if c.t.state == ESTAB {
        NextInHand(p, c, c'.t.out[i]);
      } else {
        NoAck(p, c'.t.out[i], InHand(c'));
      }
    }
    NewAcksKeep(p, c, c');
  }

  lemma NoAck(p: Peer, o: Out, n: nat)
    requires !o.flags.ack
    ensures AcksAtMost(p, o, n)
  {
  }

  lemma CloseAcks(p: Peer, c: Conn)
    requires StreamInv(p, c) && AcksInv(p, c) && !c.t.freed
    ensures AcksInv(p, Do(c, CloseIt))
  {
    hide AcksInv, SeqAt, Text, StreamInv, AcksAtMost;
    var c' := Do(c, CloseIt);
    if |c'.t.out| > |c.t.out| {
      NextInHand(p, c, c'.t.out[|c.t.out|]);
    }
    NewAcksKeep(p, c, c');
  }

  lemma StepAcks(p: Peer, c: Conn, a: Action)
    requires PeerOk(p) && StreamInv(p, c) && AcksInv(p, c) && Enabled(p, c, a)
    ensures AcksInv(p, Do(c, a))
  {
    hide Text, Recv, SeqAt, Flush, ReadPass, AcksAtMost, AcksInv, Close, Send;
    match a
    case Arrive(s, off) => ArriveAcks(p, c, s, off);
    case StartRead(_, _) => NewAcksKeep(p, c, Do(c, a));
    case Pass =>
      PassGot(c);
      NewAcksKeep(p, c, Do(c, a));
    case SendText(psh, len) => SendAcks(p, c, psh, len);
    case CloseIt => CloseAcks(p, c);
    case ConnectTo(_, _) =>
      var c' := Do(c, a);
      NoAck(p, c'.t.out[|c.t.out|], InHand(c'));
      NewAcksKeep(p, c, c');
    case ListenOn => NewAcksKeep(p, c, Do(c, a));
  }

  lemma {:induction false} RunAcks(p: Peer, c: Conn, run: seq<Action>)
    requires PeerOk(p) && StreamInv(p, c) && AcksInv(p, c) && ValidRun(p, c, run)
    ensures AcksInv(p, Run(c, run))
    decreases |run|
  {
    hide StreamInv, AcksInv, Enabled, Do;
    if |run| > 0 {
      StepStream(p, c, run[0]);
      StepAcks(p, c, run[0]);
      RunAcks(p, Do(c, run[0]), run[1..]);
    }
  }

  /** An acknowledgement of a byte of the stream that was not taken. */
  predicate CoversUntaken(p: Peer, c: Conn, o: Out) {
    IsAck(o) && exists k: nat :: |Got(c)| < k <= |p.stream| && o.ackno == SeqAt(p, k)
  }

  lemma UntakenBound(p: Peer, c: Conn, o: Out)
    requires PeerOk(p) && Got(c) <= p.stream && AcksAtMost(p, o, InHand(c)) && CoversUntaken(p, c, o)
    ensures c.fin && Got(c) != p.stream
  {
    hide Got, SeqAt;
    var k: nat :| |Got(c)| < k <= |p.stream| && o.ackno == SeqAt(p, k);
    var m: nat :| m <= InHand(c) && o.ackno == SeqAt(p, m);
    SeqAtInjective(p, k, m);
  }

  lemma UntakenAcks(p: Peer, c: Conn)
    requires PeerOk(p) && StreamInv(p, c) && AcksInv(p, c)
    ensures (exists i :: 0 <= i < |c.t.out| && CoversUntaken(p, c, c.t.out[i])) <==> c.fin && Got(c) != p.stream
  {
    hide Got, SeqAt, AcksAtMost, CoversUntaken;
    if i :| 0 <= i < |c.t.out| && CoversUntaken(p, c, c.t.out[i]) {
      UntakenBound(p, c, c.t.out[i]);
    }
    if c.fin && Got(c) != p.stream {
      var i :| 0 <= i < |c.t.out| && IsAck(c.t.out[i]) && c.t.out[i].ackno == SeqAt(p, |Got(c)| + 1);
      ShorterPrefix(Got(c), p.stream);
      CoversNext(p, c, c.t.out[i]);
    }
  }

  lemma ShorterPrefix<T>(a: seq<T>, b: seq<T>)
    requires a <= b && a != b
    ensures |a| < |b|
  {
  }

  lemma CoversNext(p: Peer, c: Conn, o: Out)
    requires IsAck(o) && o.ackno == SeqAt(p, |Got(c)| + 1) && |Got(c)| < |p.stream|
    ensures CoversUntaken(p, c, o)
  {
  }

  /**
   In every run, every segment sent with ACK and without RST acknowledges the SYN and at
   most the text taken, plus one once a FIN was taken; and one of them acknowledges a byte
   that was not taken exactly when the FIN was taken before all of the text.
   */
  lemma AcksExactly(p: Peer, run: seq<Action>)
    requires PeerOk(p) && ValidRun(p, START, run)
    ensures var c := Run(START, run);
            && (forall i :: 0 <= i < |c.t.out| ==> AcksAtMost(p, c.t.out[i], |Got(c)| + (if c.fin then 1 else 0)))
            && ((exists i :: 0 <= i < |c.t.out| && CoversUntaken(p, c, c.t.out[i])) <==> c.fin && Got(c) != p.stream)
  {
    hide Enabled, Do, AcksAtMost, StreamInv, CoversUntaken, Got, HandshakeInv, WindowInv, SendInv;
    StartInv(p);
    RunStream(p, START, run);
    RunAcks(p, START, run);
    UntakenAcks(p, Run(START, run));
  }

  /** A run takes a FIN out of order or from a segment with text. */
  predicate TakesEarlyFin(c: Conn, run: seq<Action>)
    decreases |run|
  {
    && |run| > 0
    && (|| (run[0].Arrive? && TookFin(c.t, Recv(c.t, run[0].s))
            && !(run[0].s.text == [] && run[0].s.seqno == c.t.rcvNxt))
        || TakesEarlyFin(Do(c, run[0]), run[1..]))
  }

  predicate ShortTexts(run: seq<Action>) {
    forall i :: 0 <= i < |run| && run[i].Arrive? ==> |run[i].s.text| < 0x1_0000
  }

  /** Once a FIN is taken no more text is. */
  lemma FinIsLast(p: Peer, c: Conn, a: Action)
    requires PeerOk(p) && StreamInv(p, c) && Enabled(p, c, a) && c.fin
    ensures Do(c, a).fin && Got(Do(c, a)) == Got(c) && !(a.Arrive? && TookFin(c.t, Recv(c.t, a.s)))
  {
    hide Text, Recv, SeqAt, Flush, ReadPass, Add;
    match a
    case Arrive(s, off) => GotGrows(p, c, s, off);
    case Pass =>
      UnopenedEmpty(c);
      PassGot(c);
    case SendText(psh, len) => SendKeeps(c.t, ACK.(psh := psh), len);
    case _ =>
  }

  lemma {:induction false} RunFin(p: Peer, c: Conn, run: seq<Action>)
    requires PeerOk(p) && StreamInv(p, c) && WindowInv(c.t) && ValidRun(p, c, run) && ShortTexts(run)
    ensures var c' := Run(c, run);
            if c.fin then c'.fin && Got(c') == Got(c) && !TakesEarlyFin(c, run)
            else (c'.fin && Got(c') != p.stream <==> TakesEarlyFin(c, run))
    decreases |run|
  {
    hide StreamInv, Enabled, Do, Got, Recv, WindowInv, TookFin;
    if |run| > 0 {
      var a := run[0];
      StepStream(p, c, a);
      StepWindow(p, c, a);
      assert ShortTexts(run[1..]);
      RunFin(p, Do(c, a), run[1..]);
      if c.fin {
        FinIsLast(p, c, a);
      } else {
        FinFirst(p, c, a);
      }
    }
  }

  lemma FinFirst(p: Peer, c: Conn, a: Action)
    requires PeerOk(p) && StreamInv(p, c) && WindowInv(c.t) && Enabled(p, c, a) && !c.fin
    requires a.Arrive? ==> |a.s.text| < 0x1_0000
    ensures Do(c, a).fin <==> a.Arrive? && TookFin(c.t, Recv(c.t, a.s))
    ensures Do(c, a).fin ==> (Got(Do(c, a)) == p.stream <==> a.s.text == [] && a.s.seqno == c.t.rcvNxt)
  {
    hide Recv, StreamInv, WindowInv, Text, TookFin;
    if a.Arrive? && TookFin(c.t, Recv(c.t, a.s)) { FinStep(p, c, a.s, a.off); }
  }

  /**
   In every run an acknowledgement covers a byte that was not taken exactly when a FIN is
   taken out of order or from a segment with text.
   */
  lemma UntakenAcked(p: Peer, run: seq<Action>)
    requires PeerOk(p) && ValidRun(p, START, run) && ShortTexts(run)
    ensures var c := Run(START, run);
            (exists i :: 0 <= i < |c.t.out| && CoversUntaken(p, c, c.t.out[i])) <==> TakesEarlyFin(START, run)
  {
    hide Enabled, Do, StreamInv, CoversUntaken, Got, HandshakeInv, WindowInv, SendInv, TakesEarlyFin, AcksAtMost;
    StartInv(p);
    AcksExactly(p, run);
    RunFin(p, START, run);
  }

  // ---------------------------------------------------------------- the end of the stream

  /** A FIN that is taken was in the window. */
  lemma FinInWindow(t: Tcb, s: Seg)
    requires TookFin(t, Recv(t, s))
    ensures SeqValid(t.rcvWnd, t.rcvNxt, s.seqno, |s.text|)
  {
    hide RecvAccepted, CheckAck;
  }

  /** Text that ends just before the next sequence number is not in the window. */
  lemma OldTextOutside(wnd: nat, nxt: nat, seqno: nat, len: nat)
    requires 0 < wnd <= WND && nxt < U32 && seqno < U32 && 0 < len < 0x1_0000 && Add(seqno, len) == nxt
    ensures !SeqValid(wnd, nxt, seqno, len)
  {
  }

  lemma FinCases(p: Peer, c: Conn, s: Seg, off: nat)
    requires PeerOk(p) && StreamInv(p, c) && Enabled(p, c, Arrive(s, off)) && TookFin(c.t, Recv(c.t, s))
    ensures TakesFin(c.t, Recv(c.t, s), s) && FromPeer(p, s, off)
  {
    hide Recv, Add, SeqAt, Text;
    RecvCases(c.t, s);
    assert |c.t.rxq + [RxBuf(s.text, s.flags.psh)]| > |c.t.rxq|;
  }

  lemma FinStep(p: Peer, c: Conn, s: Seg, off: nat)
    requires PeerOk(p) && StreamInv(p, c) && WindowInv(c.t) && Enabled(p, c, Arrive(s, off)) && |s.text| < 0x1_0000
    requires TookFin(c.t, Recv(c.t, s))
    ensures Got(Do(c, Arrive(s, off))) == p.stream <==> s.text == [] && s.seqno == c.t.rcvNxt
  {
    hide Recv, Add, SeqAt, Text, SeqValid;
    FinCases(p, c, s, off);
    FinInWindow(c.t, s);
    SeqAtInjective(p, off, |Got(c)|);
    if Got(c) == p.stream && s.text != [] {
      SeqAtAdd(p, off, |s.text|);
      SeqAtBound(p, off);
      SeqAtBound(p, |Got(c)|);
      OldTextOutside(c.t.rcvWnd, c.t.rcvNxt, s.seqno, |s.text|);
    }
  }

  /**
   When a FIN is taken, in any run and any state that takes one, all of the peer's text
   has been taken exactly when the segment came in order and without text of its own.
   */
  lemma FinExactly(p: Peer, run: seq<Action>, s: Seg, off: nat)
    requires PeerOk(p) && ValidRun(p, START, run) && Enabled(p, Run(START, run), Arrive(s, off)) && |s.text| < 0x1_0000
    requires var c := Run(START, run); TookFin(c.t, Recv(c.t, s))
    ensures var c := Run(START, run);
            Got(Do(c, Arrive(s, off))) == p.stream <==> s.text == [] && s.seqno == c.t.rcvNxt
  {
    hide Enabled, Do, Recv, Got, StreamInv, WindowInv, HandshakeInv, SendInv, TookFin;
    StartInv(p);
    RunStream(p, START, run);
    RunWindow(p, START, run);
    FinStep(p, Run(START, run), s, off);
  }

  lemma SeqAtBound(p: Peer, i: nat)
    ensures SeqAt(p, i) < U32
  {
  }

  /**
   A call that has taken bytes loses them exactly when its next pass finds the peer's FIN
   taken or the block freed; then it returns -1 and what it took is reported by no call.
   */
  lemma LossExactly(p: Peer, run: seq<Action>, a: Action)
    requires PeerOk(p) && ValidRun(p, START, run) && Enabled(p, Run(START, run), a)
    ensures var c := Run(START, run); var c' := Do(c, a);
            && (c'.lost != c.lost <==> a == Pass && c.taken != [] && (c.t.freed || c.t.state == CLOSE_WAIT))
            && (c'.lost != c.lost ==> c.lost == [] && c'.lost == c.taken && c'.reported == c.reported && c'.t == c.t)
  {
    hide Enabled, Do, StreamInv, Text;
    StartInv(p);
    RunStream(p, START, run);
    LossStep(p, Run(START, run), a);
  }

  /** Some pass of the run finds a FIN taken or the block freed after its call has taken bytes. */
  predicate LosesIn(c: Conn, run: seq<Action>)
    decreases |run|
  {
    && |run| > 0
    && (|| (run[0] == Pass && c.taken != [] && (c.t.freed || c.t.state == CLOSE_WAIT))
        || LosesIn(Do(c, run[0]), run[1..]))
  }

  lemma LossStep(p: Peer, c: Conn, a: Action)
    requires StreamInv(p, c) && Enabled(p, c, a)
    ensures var c' := Do(c, a);
            && (c'.lost != c.lost <==> a == Pass && c.taken != [] && (c.t.freed || c.t.state == CLOSE_WAIT))
            && (c'.lost != c.lost ==> c.lost == [] && c'.lost == c.taken && c'.reported == c.reported && c'.t == c.t)
  {
    hide Send, Recv, Text, ReadPass, SeqAt;
    UnopenedEmpty(c);
  }

  lemma {:induction false} RunLoses(p: Peer, c: Conn, run: seq<Action>)
    requires PeerOk(p) && StreamInv(p, c) && ValidRun(p, c, run)
    ensures Run(c, run).lost == [] <==> c.lost == [] && !LosesIn(c, run)
    decreases |run|
  {
    hide StreamInv, Enabled, Do;
    if |run| > 0 {
      StepStream(p, c, run[0]);
      LossStep(p, c, run[0]);
      RunLoses(p, Do(c, run[0]), run[1..]);
    }
  }

  /** A run loses no bytes exactly when no pass of it finds a FIN or a freed block in the middle of a call. */
  lemma NothingLost(p: Peer, run: seq<Action>)
    requires PeerOk(p) && ValidRun(p, START, run)
    ensures Run(START, run).lost == [] <==> !LosesIn(START, run)
  {
    hide Enabled, Do, Text, StreamInv, LosesIn;
    StartInv(p);
    RunLoses(p, START, run);
  }

  lemma StaysOver(p: Peer, c: Conn, a: Action)
    requires Enabled(p, c, a) && (Over(c) || c.closed) && (c.closed ==> c.call.Idle?)
    ensures var c' := Do(c, a); c'.reported == c.reported && (Over(c') || c'.closed) && (c'.closed ==> c'.call.Idle?)
  {
    hide Recv, Text, ReadPass, Flush, Add;
    if a.Arrive? { RecvCases(c.t, a.s); }
    if a.SendText? { SendKeeps(c.t, ACK.(psh := a.psh), a.len); }
  }

  lemma {:induction false} RunOver(p: Peer, c: Conn, run: seq<Action>)
    requires ValidRun(p, c, run) && (Over(c) || c.closed) && (c.closed ==> c.call.Idle?)
    ensures Run(c, run).reported == c.reported
    decreases |run|
  {
    hide Enabled, Do, Over;
    if |run| > 0 {
      StaysOver(p, c, run[0]);
      RunOver(p, Do(c, run[0]), run[1..]);
    }
  }

  /** Once a FIN is taken, the block freed or the socket closed, no call ever returns another byte. */
  lemma TextStranded(p: Peer, run: seq<Action>, more: seq<Action>)
    requires PeerOk(p) && ValidRun(p, START, run) && ValidRun(p, Run(START, run), more)
    requires var c := Run(START, run); c.t.freed || c.t.state == CLOSE_WAIT || c.closed
    ensures Run(Run(START, run), more).reported == Run(START, run).reported
  {
    hide Enabled, Do, Text, HandshakeInv, WindowInv, SendInv;
    StartInv(p);
    RunStream(p, START, run);
    RunOver(p, Run(START, run), more);
  }

  // ---------------------------------------------------------------- sequence number wrap-around

  /** The states that take text. */
  predicate TakingText(st: SockState) { st == ESTAB || st == FIN_WAIT_1 || st == FIN_WAIT_2 }

  lemma InOrderAccepted(t: Tcb, s: Seg)
    requires TakingText(t.state) && 0 < |s.text| < t.rcvWnd && s.seqno == t.rcvNxt
    requires s.flags.ack && t.sndUnack <= s.ackno <= t.sndNxt
    ensures RecvAccepted(t, s).0.rxq == t.rxq + [RxBuf(s.text, s.flags.psh)] && RecvAccepted(t, s).1 == OK
  {
    hide Add;
  }

  lemma InOrderWindow(wnd: nat, nxt: nat, len: nat)
    requires nxt < U32 && 0 < len < wnd <= WND
    ensures SeqValid(wnd, nxt, nxt, len) <==> nxt + wnd < U32
  {
  }

  /** Text that is next in order and fits is taken exactly when the window does not wrap past 2^32. */
  lemma InOrderTaken(t: Tcb, s: Seg)
    requires TakingText(t.state) && !t.freed && Matches(t, s) && t.dport == s.dport
    requires t.rcvNxt < U32 && 0 < |s.text| < t.rcvWnd <= WND && s.seqno == t.rcvNxt
    requires s.flags.ack && !s.flags.syn && !s.flags.rst && t.sndUnack <= s.ackno <= t.sndNxt
    ensures Recv(t, s).rxq == t.rxq + [RxBuf(s.text, s.flags.psh)] <==> t.rcvNxt + t.rcvWnd < U32
  {
    hide SeqValid, RecvAccepted;
    InOrderWindow(t.rcvWnd, t.rcvNxt, |s.text|);
    InOrderAccepted(t, s);
    assert |t.rxq| != |t.rxq + [RxBuf(s.text, s.flags.psh)]|;
  }

  // ---------------------------------------------------------------- a call that nothing interrupts

  /** The number of passes of a read. */
  function PassCount(q: seq<RxBuf>, n: nat): nat
    decreases |q|
  {
    var (bytes, rest, again) := ReadPass(q, n);
    if again && |bytes| <= n && |rest| < |q| then 1 + PassCount(rest, n - |bytes|) else 1
  }

  function Passes(k: nat): seq<Action> { seq(k, i => Pass) }

  lemma PassesUnfold(k: nat)
    requires k > 0
    ensures |Passes(k)| == k && Passes(k)[0] == Pass && Passes(k)[1..] == Passes(k - 1)
  {
  }

  lemma NoPasses()
    ensures Passes(0) == []
  {
  }

  lemma StillReadable(t: Tcb, rxq: seq<RxBuf>, wnd: nat)
    ensures Readable(t.(rxq := rxq, rcvWnd := wnd)) == Readable(t)
  {
  }

  lemma {:induction false} PassesRead(p: Peer, c: Conn)
    requires c.call.Reading? && c.call.nonblock && Readable(c.t)
    ensures var passes := Passes(PassCount(c.t.rxq, c.call.left));
            var (bytes, rest) := ReadQueue(c.t.rxq, c.call.left);
            && ValidRun(p, c, passes)
            && Run(c, passes) == c.(call := Idle, taken := [], reported := c.reported + c.taken + bytes,
                                    t := c.t.(rxq := rest, rcvWnd := c.t.rcvWnd + |bytes|))
    decreases |c.t.rxq|
  {
    hide ReadPass, Text, Readable, Passes;
    var q, n := c.t.rxq, c.call.left;
    PassConserves(q, n);
    EmptyPass(n);
    var (bytes, rest, again) := ReadPass(q, n);
    var k := PassCount(q, n);
    PassesUnfold(k);
    var c1 := DoPass(c);
    assert Enabled(p, c, Pass) && Do(c, Pass) == c1;
    StillReadable(c.t, rest, c.t.rcvWnd + |bytes|);
    if again {
      PassesRead(p, c1);
      assert ((c.reported + c.taken) + bytes) + ReadQueue(rest, n - |bytes|).0 ==
          (c.reported + c.taken) + (bytes + ReadQueue(rest, n - |bytes|).0);
      assert c1.reported + c1.taken == (c.reported + c.taken) + bytes;
    } else {
      NoPasses();
      assert c.reported + (c.taken + bytes) == (c.reported + c.taken) + bytes;
    }
  }

  lemma EmptyPass(n: nat)
    ensures ReadPass([], n) == ([], [], false)
  {
  }

  /** A call on a non-blocking socket that no other event interrupts is its passes, and returns what ReadQueue says. */
  lemma CallAlone(p: Peer, c: Conn, n: nat)
    requires c.call.Idle? && !c.closed && Readable(c.t)
    ensures var call := [StartRead(n, true)] + Passes(PassCount(c.t.rxq, n));
            var (bytes, rest) := ReadQueue(c.t.rxq, n);
            && ValidRun(p, c, call)
            && Run(c, call) ==
                c.(taken := [], reported := c.reported + bytes, t := c.t.(rxq := rest, rcvWnd := c.t.rcvWnd + |bytes|))
  {
    hide ReadPass, ReadQueue, PassCount, Passes;
    var passes := Passes(PassCount(c.t.rxq, n));
    PassesRead(p, Do(c, StartRead(n, true)));
    assert ([StartRead(n, true)] + passes)[1..] == passes;
    assert c.reported + [] == c.reported;
  }

  // ---------------------------------------------------------------- runs that show what can happen

  lemma {:induction false} RunThen(p: Peer, c: Conn, run: seq<Action>, a: Action)
    requires ValidRun(p, c, run) && Enabled(p, Run(c, run), a)
    ensures ValidRun(p, c, run + [a]) && Run(c, run + [a]) == Do(Run(c, run), a)
    decreases |run|
  {
    hide Enabled, Do;
    if |run| == 0 {
      assert run + [a] == [a] && [a][1..] == [];
      assert Run(Do(c, a), []) == Do(c, a);
    } else {
      RunThen(p, Do(c, run[0]), run[1..], a);
      assert (run + [a])[1..] == run[1..] + [a];
    }
  }

  function Data(seqno: nat, flags: Flags, text: seq<Byte>): Seg { Seg(1, 80, seqno, 1, 0, flags, text) }

  /** Connect to a peer and take its SYN and ACK. */
  function OpenRun(p: Peer): seq<Action> {
    [ConnectTo(1, 80)] + [Arrive(Data(p.isn, SYN_ACK, []), 0)]
  }

  /** An established connection, nothing sent or queued yet. */
  predicate Established(p: Peer, c: Conn) {
    && c.t.state == ESTAB && c.t.raddr == 1 && c.t.dport == 80 && c.t.sndUnack == 1 && c.t.sndNxt == 1
    && c.t.rcvNxt == SeqAt(p, 0) && c.t.rcvWnd == WND && c.t.rxq == [] && c.t.txq == [] && !c.t.freed
    && c.call.Idle? && !c.closed && c.reported == c.lost == c.taken == []
  }

  lemma Opening(p: Peer)
    ensures ValidRun(p, START, OpenRun(p)) && Established(p, Run(START, OpenRun(p)))
  {
    hide Enabled, Do, Established;
    OpeningSteps(p);
    RunThen(p, START, [], ConnectTo(1, 80));
    assert [] + [ConnectTo(1, 80)] == [ConnectTo(1, 80)];
    RunThen(p, START, [ConnectTo(1, 80)], OpenRun(p)[1]);
  }

  lemma OpeningSteps(p: Peer)
    ensures var a, b := ConnectTo(1, 80), Arrive(Data(p.isn, SYN_ACK, []), 0);
            Enabled(p, START, a) && Enabled(p, Do(START, a), b) && Established(p, Do(Do(START, a), b))
  {
  }

  const EARLY_PEER: Peer := Peer(100, [7])

  lemma EarlyCloses(c: Conn)
    requires Established(EARLY_PEER, c)
    ensures var fin := Arrive(Data(102, FIN_ACK, []), 1); var c' := Do(c, fin);
            && Enabled(EARLY_PEER, c, fin) && c'.t.state == CLOSE_WAIT && Got(c') == []
            && |c'.t.out| == |c.t.out| + 1 && IsAck(c'.t.out[|c.t.out|]) && c'.t.out[|c.t.out|].ackno == 102
  {
  }

  /** A FIN that overtakes the peer's only byte, number 101, ends the connection without it and acknowledges it. */
  lemma EarlyFin()
    ensures exists run :: PeerOk(EARLY_PEER) && ValidRun(EARLY_PEER, START, run)
              && Run(START, run).t.state == CLOSE_WAIT && Got(Run(START, run)) == []
              && (exists i :: 0 <= i < |Run(START, run).t.out|
                   && IsAck(Run(START, run).t.out[i]) && Run(START, run).t.out[i].ackno == 102
                   && CoversUntaken(EARLY_PEER, Run(START, run), Run(START, run).t.out[i]))
  {
    var p, run := EARLY_PEER, OpenRun(EARLY_PEER);
    var fin := Arrive(Data(102, FIN_ACK, []), 1);
    hide OpenRun, Established, Enabled, Do, Got;
    Opening(p);
    EarlyCloses(Run(START, run));
    RunThen(p, START, run, fin);
  }

  const LOSS_PEER: Peer := Peer(100, [67, 68, 69, 70])

  /** A call takes two bytes and waits for more; two more arrive and then the FIN, in order. */
  function LossRun(): seq<Action> {
    OpenRun(LOSS_PEER)
    + [Arrive(Data(101, ACK, [67, 68]), 0)] + [StartRead(10, false)] + [Pass]
    + [Arrive(Data(103, ACK, [69, 70]), 2)] + [Arrive(Data(105, FIN_ACK, []), 4)] + [Pass]
  }

  /** After the call's first pass. */
  predicate TookTwo(c: Conn) {
    && c.t.state == ESTAB && c.t.raddr == 1 && c.t.dport == 80 && c.t.sndUnack == 1 && c.t.sndNxt == 1
    && c.t.rcvNxt == 103 && c.t.rcvWnd == WND && c.t.rxq == [] && !c.t.freed
    && c.call.Reading? && c.taken == [67, 68] && c.reported == c.lost == []
  }

  lemma FirstText(c: Conn)
    requires Established(LOSS_PEER, c)
    ensures var a := Arrive(Data(101, ACK, [67, 68]), 0); var c' := Do(c, a);
            && Enabled(LOSS_PEER, c, a) && Enabled(LOSS_PEER, c', StartRead(10, false))
            && c' == c.(t := c'.t)
            && c'.t.rxq == [RxBuf([67, 68], false)] && c'.t.rcvNxt == 103 && c'.t.rcvWnd == WND - 2
            && c'.t == c.t.(rxq := c'.t.rxq, rcvNxt := 103, rcvWnd := WND - 2, out := c'.t.out, sndUnack := 1,
                            sndWnd := c'.t.sndWnd, sndWl1 := c'.t.sndWl1, sndWl2 := c'.t.sndWl2)
  {
    assert LOSS_PEER.stream[0..2] == [67, 68];
  }

  lemma FirstPass()
    ensures var run := LossRun()[..5];
            PeerOk(LOSS_PEER) && ValidRun(LOSS_PEER, START, run) && TookTwo(Run(START, run))
  {
    hide Recv, Enabled;
    var p, r := LOSS_PEER, OpenRun(LOSS_PEER);
    var a, b := Arrive(Data(101, ACK, [67, 68]), 0), StartRead(10, false);
    Opening(p);
    assert LossRun()[..5] == r + [a] + [b] + [Pass];
    hide OpenRun;
    FirstText(Run(START, r));
    RunThen(p, START, r, a);
    RunThen(p, START, r + [a], b);
    assert Enabled(p, Run(START, r + [a] + [b]), Pass) by { PassEnabled(p, Run(START, r + [a] + [b])); }
    RunThen(p, START, r + [a] + [b], Pass);
  }

  lemma PassEnabled(p: Peer, c: Conn)
    ensures Enabled(p, c, Pass) <==> c.call.Reading?
  {
  }

  /** Two more bytes are queued behind the two taken. */
  predicate TwoMore(c: Conn) {
    && c.t.state == ESTAB && c.t.raddr == 1 && c.t.dport == 80 && c.t.sndUnack == 1 && c.t.sndNxt == 1
    && c.t.rcvNxt == 105 && c.t.rcvWnd == WND - 2 && c.t.rxq == [RxBuf([69, 70], false)] && !c.t.freed
    && c.call.Reading? && c.taken == [67, 68] && c.reported == c.lost == []
  }

  lemma LateText(c: Conn)
    requires TookTwo(c)
    ensures var a := Arrive(Data(103, ACK, [69, 70]), 2); Enabled(LOSS_PEER, c, a) && TwoMore(Do(c, a))
  {
    assert LOSS_PEER.stream[2..4] == [69, 70];
  }

  lemma LateFin(c: Conn)
    requires TwoMore(c)
    ensures var a := Arrive(Data(105, FIN_ACK, []), 4); var c' := Do(c, a);
            && Enabled(LOSS_PEER, c, a) && Enabled(LOSS_PEER, c', Pass)
            && Do(c', Pass).call.Idle? && Do(c', Pass).lost == [67, 68]
            && Do(c', Pass).t.rxq == [RxBuf([69, 70], false)]
            && Do(c', Pass).taken == Do(c', Pass).reported == []
  {
  }

  /**
   The call of LossRun returns -1 though all of the stream was taken in order: the two
   bytes it took are lost and the two queued after them stay, so that what is returned,
   taken and queued is no prefix of the stream.
   */
  lemma CallLoses()
    ensures PeerOk(LOSS_PEER) && ValidRun(LOSS_PEER, START, LossRun())
    ensures var c := Run(START, LossRun());
            && c.call.Idle? && c.lost == [67, 68] && Text(c.t.rxq) == [69, 70]
            && !(c.reported + c.taken + Text(c.t.rxq) <= LOSS_PEER.stream)
  {
    hide Enabled, Do, TookTwo, TwoMore;
    var p, r := LOSS_PEER, LossRun()[..5];
    var a, b := Arrive(Data(103, ACK, [69, 70]), 2), Arrive(Data(105, FIN_ACK, []), 4);
    assert LossRun() == r + [a] + [b] + [Pass];
    FirstPass();
    LateText(Run(START, r));
    RunThen(p, START, r, a);
    LateFin(Run(START, r + [a]));
    RunThen(p, START, r + [a], b);
    RunThen(p, START, r + [a] + [b], Pass);
    var c := Run(START, LossRun());
    assert Text(c.t.rxq) == [69, 70] + Text([]);
    assert c.reported + c.taken + Text(c.t.rxq) == [69, 70];
    assert p.stream[0] == 67;
  }

  const WRAP_PEER: Peer := Peer(U32 - 3, [7])

  /** Text that comes next in order is refused where the window passes 2^32. */
  lemma WrapRefuses()
    ensures exists run :: PeerOk(WRAP_PEER) && ValidRun(WRAP_PEER, START, run)
              && Run(START, run).t.state == ESTAB
              && Enabled(WRAP_PEER, Run(START, run), Arrive(Data(U32 - 2, ACK, [7]), 0))
              && Run(START, run).t.rcvNxt == U32 - 2 && Recv(Run(START, run).t, Data(U32 - 2, ACK, [7])).rxq == []
  {
    var p, run := WRAP_PEER, OpenRun(WRAP_PEER);
    Opening(p);
    hide OpenRun;
    assert ValidRun(p, START, run) && Established(p, Run(START, run));
  }

  lemma QueuedSteps()
    ensures var a, b, d := ConnectTo(1, 80), SendText(true, 5), Arrive(Data(100, SYN_ACK, []), 0);
            var c2 := Do(Do(START, a), b);
            && Enabled(EARLY_PEER, START, a) && Enabled(EARLY_PEER, Do(START, a), b) && Enabled(EARLY_PEER, c2, d)
            && Do(c2, d).t.state == ESTAB && Do(c2, d).t.txq == [TxBuf(1, ACK.(psh := true), 5)]
  {
  }

  /** Text queued before the handshake ends waits in the queue of an established connection. */
  lemma QueuedBeforeEstab()
    ensures exists run, p ::
              && PeerOk(p) && ValidRun(p, START, run)
              && Run(START, run).t.state == ESTAB && !AllEmpty(Run(START, run).t.txq)
  {
    hide Enabled, Do;
    var p, a, b, d := EARLY_PEER, ConnectTo(1, 80), SendText(true, 5), Arrive(Data(100, SYN_ACK, []), 0);
    QueuedSteps();
    RunThen(p, START, [], a);
    assert [] + [a] == [a];
    RunThen(p, START, [a], b);
    RunThen(p, START, [a] + [b], d);
    var run := [a] + [b] + [d];
    assert !AllEmpty(Run(START, run).t.txq) by { assert Run(START, run).t.txq[0].len == 5; }
    assert PeerOk(p) && ValidRun(p, START, run);
  }

  // ---------------------------------------------------------------- the code

  /** The snd and rcv parts of struct sock_cb. */
  datatype Snd = Snd(init: nat, unack: nat, nxt: nat, wnd: nat, wl1: nat, wl2: nat)

  datatype Rcv = Rcv(init: nat, nxt: nat, wnd: nat)

  /**
   struct sock_cb, with the segments sent. Every method does to it what the function of its
   name does to its value.
   */
  class SockCb {
    var state: SockState
    var raddr: nat
    var dport: nat
    var snd: Snd
    var rcv: Rcv
    var txq: seq<TxBuf>
    var rxq: seq<RxBuf>
    var out: seq<Out>
    var freed: bool

    function View(): Tcb
      reads this
    {
      Tcb(state, raddr, dport, snd.init, snd.unack, snd.nxt, snd.wnd, snd.wl1, snd.wl2, rcv.init, rcv.nxt, rcv.wnd,
          txq, rxq, out, freed)
    }

    constructor ()
      ensures View() == FRESH
    {
      state, raddr, dport := CLOSED, 0, 0;
      snd, rcv := Snd(0, 0, 0, 0, 0, 0), Rcv(0, 0, WND);
      txq, rxq, out, freed := [], [], [], false;
    }

    method SendCore(seqno: nat, ackno: nat, flags: Flags, len: nat)
      modifies this`out
      ensures View() == Emit(old(View()), seqno, ackno, flags, len)
    {
      var ack := 0;
      if flags.ack {
        ack := ackno;
      }
      out := out + [Out(seqno, ack, rcv.wnd, flags, len)];
    }

    method TcpListen()
      modifies this`state
      ensures View() == Listen(old(View()))
    {
      state := LISTEN;
    }

    method TcpConnect(addr: nat, port: nat)
      modifies this
      ensures View() == Connect(old(View()), addr, port)
    {
      raddr, dport, rcv := addr, port, rcv.(wnd := WND);
      SendCore(snd.nxt, rcv.nxt, SYN, 0);
      state := SYN_SENT;
      snd := snd.(nxt := Add(snd.init, 1));
    }

    method TcpRecvListen(s: Seg) returns (code: Code)
      modifies this
      ensures (View(), code) == RecvListen(old(View()), s)
    {
      if s.flags.rst {
        return ERR;
      }
      if s.flags.ack {
        SendCore(s.ackno, 0, RST_ACK, 0);
        return ERR;
      }
      if !s.flags.syn {
        return ERR;
      }
      raddr, dport := s.raddr, s.dport;
      rcv, snd := Rcv(s.seqno, Add(s.seqno, 1), WND), snd.(init := 0, nxt := 1, unack := 0);
      SendCore(snd.init, rcv.nxt, SYN_ACK, 0);
      state := SYN_RCVD;
      return OK;
    }

    method TcpRecvSynSent(s: Seg) returns (code: Code)
      modifies this
      ensures (View(), code) == RecvSynSent(old(View()), s)
    {
      if s.flags.ack {
        if s.ackno <= snd.init || s.ackno > snd.nxt {
          SendCore(snd.nxt, rcv.nxt, RST_ACK, 0);
          snd := snd.(nxt := Add(snd.init, 1));
          return ERR;
        }
      }
      if s.flags.rst {
        return ERR;
      }
      if !(s.flags.syn && s.flags.ack) {
        return ERR;
      }
      rcv, snd := rcv.(nxt := Add(s.seqno, 1), init := s.seqno), snd.(unack := s.ackno);
      if snd.unack > snd.init {
        state := ESTAB;
        SendCore(snd.nxt, rcv.nxt, ACK, 0);
      } else {
        assert false; // the SYN_RCVD branch: an acknowledgement of no more than snd.init was answered above
      }
      return OK;
    }

    method TcpCheckRst(f: Flags) returns (code: Code)
      modifies this`state
      ensures (View(), code) == CheckRst(old(View()), f)
    {
      if f.rst {
        match state {
          case SYN_RCVD =>
            state := LISTEN;
            return CLOSE_SCB;
          case ESTAB | FIN_WAIT_1 | FIN_WAIT_2 | CLOSE_WAIT | CLOSING | LAST_ACK | TIME_WAIT =>
            state := CLOSED;
            return CLOSE_SCB;
          case _ =>
        }
      }
      return OK;
    }

    method TcpCheckAck(s: Seg) returns (code: Code)
      modifies this
      ensures (View(), code) == CheckAck(old(View()), s)
    {
      if !s.flags.ack {
        return ERR;
      }
      var next := snd.unack < s.ackno && s.ackno <= snd.nxt;
      if state == SYN_RCVD {
        if !next {
          return SND_RST;
        }
        state := ESTAB;
      } else if state == LAST_ACK {
        state := CLOSED;
        return CLOSE_SCB;
      } else if state == ESTAB || state == FIN_WAIT_1 || state == FIN_WAIT_2 || state == CLOSE_WAIT
          || state == CLOSING {
        if next {
          snd := snd.(unack := s.ackno);
          if snd.wl1 < s.seqno || (snd.wl1 == s.seqno && snd.wl2 <= s.ackno) {
            snd := snd.(wnd := Ntohl16(s.wnd), wl1 := s.seqno, wl2 := s.ackno);
          }
        } else if s.ackno < snd.unack {
          return ERR;
        } else if snd.nxt < s.ackno {
          return SND_ACK;
        }
        if state == FIN_WAIT_1 {
          state := FIN_WAIT_2;
        }
        if state == CLOSING {
          state := CLOSED;
          return CLOSE_SCB;
        }
      }
      return OK;
    }

    method TcpCheckText(seqno: nat, len: nat) returns (code: Code)
      modifies this
      ensures (View(), code) == CheckText(old(View()), seqno, len)
    {
      if !(state == ESTAB || state == FIN_WAIT_1 || state == FIN_WAIT_2) {
        return ERR;
      }
      if len > 0 && rcv.nxt == seqno {
        if rcv.wnd > len {
          rcv := rcv.(nxt := Add(rcv.nxt, len), wnd := rcv.wnd - len);
          return TXT_OK;
        }
        return RETRANS;
      }
      return OK;
    }

    method TcpCheckFin(f: Flags) returns (code: Code)
      modifies this
      ensures (View(), code) == CheckFin(old(View()), f)
    {
      if !f.fin {
        return OK;
      }
      match state {
        case SYN_RCVD | ESTAB =>
          rcv := rcv.(nxt := Add(rcv.nxt, 1));
          state := CLOSE_WAIT;
          return SND_ACK;
        case FIN_WAIT_1 | FIN_WAIT_2 =>
          rcv := rcv.(nxt := Add(rcv.nxt, 1));
          return CLOSE_SCB;
        case _ =>
          return ERR;
      }
    }

    method TcpRecvText(s: Seg) returns (code: Code)
      modifies this
      ensures (View(), code) == RecvText(old(View()), s)
    {
      hide CheckText, CheckFin, Emit;
      var r := TcpCheckText(s.seqno, |s.text|);
      if r == ERR {
        return ERR;
      }
      if r == TXT_OK {
        rxq := rxq + [RxBuf(s.text, s.flags.psh)];
        SendCore(snd.nxt, rcv.nxt, ACK, 0);
        return OK;
      }
      r := TcpCheckFin(s.flags);
      if r == CLOSE_SCB {
        SendCore(snd.nxt, rcv.nxt, ACK, 0);
        return CLOSE_SCB;
      }
      if r == SND_ACK {
        SendCore(snd.nxt, rcv.nxt, ACK, 0);
        return ERR;
      }
      return FREE_MBUF;
    }

    method TcpRecvAccepted(s: Seg) returns (code: Code)
      modifies this
      ensures (View(), code) == RecvAccepted(old(View()), s)
    {
      hide CheckAck, RecvText, Emit;
      var r := TcpCheckAck(s);
      match r {
        case CLOSE_SCB => return CLOSE_SCB;
        case SND_RST =>
          SendCore(snd.nxt, rcv.nxt, RST, 0);
          return ERR;
        case ERR => return ERR;
        case SND_ACK =>
          SendCore(snd.nxt, rcv.nxt, ACK, 0);
          return ERR;
        case _ =>
          code := TcpRecvText(s);
      }
    }

    method TcpRecvCore(s: Seg) returns (code: Code)
      modifies this
      ensures (View(), code) == RecvCore(old(View()), s)
    {
      hide CheckRst, RecvAccepted, Emit;
      if !SeqValid(rcv.wnd, rcv.nxt, s.seqno, |s.text|) {
        if !s.flags.rst {
          SendCore(snd.nxt, rcv.nxt, ACK, 0);
        }
        return ERR;
      }
      var r := TcpCheckRst(s.flags);
      if r == CLOSE_SCB {
        return CLOSE_SCB;
      }
      if Synchronized(state) && s.flags.syn {
        SendCore(s.ackno, s.seqno, RST, 0);
        return CLOSE_SCB;
      }
      code := TcpRecvAccepted(s);
    }

    method TcpRecv(s: Seg)
      modifies this
      ensures View() == Recv(old(View()), s)
    {
      hide RecvListen, RecvSynSent, RecvCore;
      if freed || !Matches(View(), s) {
        return;
      }
      if state != LISTEN && state != CLOSED && dport != s.dport {
        return;
      }
      match state {
        case CLOSED =>
        case LISTEN =>
          var _ := TcpRecvListen(s);
        case SYN_SENT =>
          var _ := TcpRecvSynSent(s);
        case _ =>
          var code := TcpRecvCore(s);
          if code == CLOSE_SCB {
            freed := true;
          }
      }
    }

    method TcpSend(flags: Flags, len: nat) returns (ok: bool)
      modifies this
      ensures (View(), ok) == Send(old(View()), flags, len)
    {
      match state {
        case LISTEN =>
          if raddr == 0 {
            return false;
          }
          snd := snd.(init := 0);
          SendCore(snd.init, rcv.nxt, SYN, 0);
          state := SYN_SENT;
          snd := snd.(unack := snd.init, nxt := snd.init + 1);
        case SYN_SENT | SYN_RCVD =>
          txq := txq + [TxBuf(snd.nxt, flags, len)];
        case ESTAB =>
          txq := txq + [TxBuf(snd.nxt, flags, len)];
          Drain();
        case _ =>
          return false;
      }
      return true;
    }

    method Drain()
      modifies this
      ensures View() == Flush(old(View()).(txq := []), old(txq))
    {
      hide Emit;
      while |txq| > 0
        invariant Flush(View().(txq := []), txq) == Flush(old(View()).(txq := []), old(txq))
        decreases |txq|
      {
        var m := txq[0];
        ghost var t := View().(txq := []);
        assert Flush(t, txq) ==
            Flush(Emit(t, m.seqno, t.rcvNxt, m.flags, m.len).(sndNxt := Add(t.sndNxt, m.len)), txq[1..]);
        txq := txq[1..];
        ghost var was := View();
        SendCore(m.seqno, rcv.nxt, m.flags, m.len);
        snd := snd.(nxt := Add(snd.nxt, m.len));
        EmitIgnoresQueue(was, m.seqno, rcv.nxt, m.flags, m.len);
      }
    }

    method TcpClose() returns (done: bool)
      modifies this
      ensures (View(), done) == Close(old(View()))
    {
      match state {
        case SYN_RCVD =>
          if |txq| > 0 {
            SendCore(snd.nxt, rcv.nxt, FIN_ACK, 0);
            snd := snd.(nxt := Add(snd.nxt, 1));
            state := FIN_WAIT_1;
          } else {
            txq := txq + [TxBuf(snd.nxt, FIN_ACK, 0)];
          }
          return false;
        case ESTAB =>
          SendCore(snd.nxt, rcv.nxt, FIN_ACK, 0);
          snd := snd.(nxt := Add(snd.nxt, 1));
          state := FIN_WAIT_1;
          return false;
        case CLOSE_WAIT =>
          SendCore(snd.nxt, rcv.nxt, FIN_ACK, 0);
          snd := snd.(nxt := Add(snd.nxt, 1));
          state := LAST_ACK;
          return false;
        case _ =>
          return true;
      }
    }

    /** One pass of sockrecv's loop on a queue with something in it. */
    method ReadOnce(room: nat) returns (bytes: seq<Byte>, again: bool)
      requires |rxq| > 0
      modifies this`rxq, this`rcv
      ensures (bytes, rxq, again) == ReadPass(old(rxq), room)
      ensures rcv == old(rcv).(wnd := old(rcv).wnd + |bytes|)
    {
      var m := rxq[0];
      rxq := rxq[1..];
      var size: nat := if room > |m.text| then |m.text| else room;
      bytes := m.text[..size];
      rcv := rcv.(wnd := rcv.wnd + size);
      if room > |m.text| {
        assert bytes == m.text;
        again := !m.psh;
      } else {
        rxq := [m.(text := m.text[size..])] + rxq;
        again := false;
      }
    }

    /**
     sockrecv on a non-blocking socket that nothing interrupts: -1 after a FIN, otherwise the
     number of bytes put in buf.
     */
    method SockRecv(n: nat) returns (res: int, buf: seq<Byte>)
      modifies this`rxq, this`rcv
      ensures !Readable(View()) ==> res == -1 && buf == [] && View() == old(View())
      ensures Readable(View()) ==>
                && (buf, rxq) == ReadQueue(old(rxq), n)
                && res == |buf|
                && rcv == old(rcv).(wnd := old(rcv).wnd + |buf|)
    {
      hide ReadQueue, ReadPass, Text;
      res, buf := 0, [];
      if !Readable(View()) {
        res := -1;
        return;
      }
      var room: nat := n;
      while |rxq| > 0
        invariant |buf| + room == n && res == |buf| && rcv == old(rcv).(wnd := old(rcv).wnd + |buf|)
        invariant ReadQueue(old(rxq), n).0 == buf + ReadQueue(rxq, room).0
        invariant ReadQueue(old(rxq), n).1 == ReadQueue(rxq, room).1
        decreases |rxq|
      {
        ReadUnfold(rxq, room);
        PassConserves(rxq, room);
        var bytes, again := ReadOnce(room);
        if again {
          AppendAssoc(buf, bytes, ReadQueue(rxq, room - |bytes|).0);
        }
        buf := buf + bytes;
        res := res + |bytes|;
        if !again {
          return;
        }
        room := room - |bytes|;
      }
      ReadUnfold(rxq, room);
      EmptyPass(room);
      assert buf + [] == buf;
    }
  }

  lemma ReadUnfold(q: seq<RxBuf>, n: nat)
    ensures var (bytes, rest, again) := ReadPass(q, n);
            && |bytes| <= n
            && (!again ==> ReadQueue(q, n) == (bytes, rest))
            && (again ==> && ReadQueue(q, n).0 == bytes + ReadQueue(rest, n - |bytes|).0
                          && ReadQueue(q, n).1 == ReadQueue(rest, n - |bytes|).1)
  {
  }

  lemma AppendAssoc<T>(a: seq<T>, b: seq<T>, c: seq<T>)
    ensures (a + b) + c == a + (b + c)
  {
  }

  lemma EmitIgnoresQueue(t: Tcb, seqno: nat, ackno: nat, flags: Flags, len: nat)
    ensures Emit(t, seqno, ackno, flags, len).(txq := []) == Emit(t.(txq := []), seqno, ackno, flags, len)
    ensures Emit(t, seqno, ackno, flags, len).txq == t.txq
  {
  }

  /** What holds of a connection at every moment of every run. */
  ghost predicate ConnInv(p: Peer, c: Conn) {
    PeerOk(p) && StreamInv(p, c) && WindowInv(c.t) && HandshakeInv(c.t) && SendInv(c) && AcksInv(p, c)
  }

  lemma StepConn(p: Peer, c: Conn, a: Action)
    requires ConnInv(p, c) && Enabled(p, c, a)
    ensures ConnInv(p, Do(c, a))
  {
    hide StreamInv, WindowInv, HandshakeInv, SendInv, AcksInv, Do, Enabled;
    StepStream(p, c, a);
    StepWindow(p, c, a);
    StepHandshake(p, c, a);
    StepSends(p, c, a);
    StepAcks(p, c, a);
  }

  /** A socket with its control block, as the application and the network driver use it. */
  class Connection {
    const scb: SockCb
    ghost const peer: Peer
    var call: Call
    var taken: seq<Byte>
    var closed: bool
    ghost var reported: seq<Byte>
    ghost var lost: seq<Byte>
    ghost var sent: nat
    ghost var fin: bool

    ghost function View(): Conn
      reads this, scb
    {
      Conn(scb.View(), call, taken, closed, reported, lost, sent, fin)
    }

    /** The text, the windows, the handshake, the sequence numbers and the acknowledgements are in order. */
    ghost predicate Valid()
      reads this, scb
    {
      ConnInv(peer, View())
    }

    constructor (ghost p: Peer)
      requires PeerOk(p)
      ensures peer == p && Valid() && View() == START && fresh(scb)
    {
      scb := new SockCb();
      peer := p;
      call, taken, closed, reported, lost, sent, fin := Idle, [], false, [], [], 0, false;
      new;
      StartInv(p);
    }

    method Receive(s: Seg, ghost off: nat)
      requires Valid() && Enabled(peer, View(), Arrive(s, off))
      modifies this`fin, scb
      ensures Valid() && View() == Do(old(View()), Arrive(s, off))
    {
      hide ConnInv, Recv, TookFin;
      StepConn(peer, View(), Arrive(s, off));
      scb.TcpRecv(s);
      fin := fin || TookFin(old(scb.View()), scb.View());
    }

    method Start(n: nat, nonblock: bool)
      requires Valid() && Enabled(peer, View(), StartRead(n, nonblock))
      modifies this`call, this`taken
      ensures Valid() && View() == Do(old(View()), StartRead(n, nonblock))
    {
      hide ConnInv;
      StepConn(peer, View(), StartRead(n, nonblock));
      call, taken := Reading(n, nonblock), [];
    }

    /** One pass of the call in progress; the result is what sockrecv returns, if it returns. */
    method Continue() returns (done: bool, res: int)
      requires Valid() && Enabled(peer, View(), Pass)
      modifies this, scb
      ensures Valid() && View() == Do(old(View()), Pass) && done == call.Idle?
      ensures done ==> res == (if Readable(old(scb.View())) then |reported| - |old(reported)| else -1)
    {
      hide ConnInv, ReadPass, Enabled;
      PassEnabled(peer, View());
      StepConn(peer, View(), Pass);
      if Readable(scb.View()) {
        done, res := Proceed();
      } else {
        done, res, lost := true, -1, lost + taken;
        call, taken := Idle, [];
      }
    }

    /** A pass that finds the control block open. */
    method Proceed() returns (done: bool, res: int)
      requires call.Reading? && Readable(scb.View())
      modifies this, scb
      ensures View() == DoPass(old(View())) && done == call.Idle?
      ensures done ==> res == |reported| - |old(reported)|
    {
      hide ReadPass, Readable;
      var buf, left := taken, call.left;
      done := call.nonblock;
      if |scb.rxq| > 0 {
        PassConserves(scb.rxq, left);
        var bytes, again := scb.ReadOnce(left);
        buf, left, done := buf + bytes, left - |bytes|, !again;
      }
      res := |buf|;
      if done {
        call, taken, reported := Idle, [], reported + buf;
      } else {
        call, taken := call.(left := left), buf;
      }
    }

    method Send(psh: bool, len: nat) returns (ok: bool)
      requires Valid() && Enabled(peer, View(), SendText(psh, len))
      modifies this`sent, scb
      ensures Valid() && View() == Do(old(View()), SendText(psh, len)) && sent == old(sent) + (if ok then len else 0)
    {
      hide ConnInv;
      StepConn(peer, View(), SendText(psh, len));
      ok := scb.TcpSend(ACK.(psh := psh), len);
      if ok {
        sent := sent + len;
      }
    }

    method Shut()
      requires Valid() && Enabled(peer, View(), CloseIt)
      modifies this`closed, scb
      ensures Valid() && View() == Do(old(View()), CloseIt)
    {
      hide ConnInv, Close;
      StepConn(peer, View(), CloseIt);
      var freed := scb.TcpClose();
      closed, scb.freed := true, freed;
    }

    method Open(raddr: nat, dport: nat)
      requires Valid() && Enabled(peer, View(), ConnectTo(raddr, dport))
      modifies scb
      ensures Valid() && View() == Do(old(View()), ConnectTo(raddr, dport))
    {
      hide ConnInv, Connect;
      StepConn(peer, View(), ConnectTo(raddr, dport));
      scb.TcpConnect(raddr, dport);
    }

    method OpenPassive()
      requires Valid() && Enabled(peer, View(), ListenOn)
      modifies scb
      ensures Valid() && View() == Do(old(View()), ListenOn)
    {
      hide ConnInv, Listen;
      StepConn(peer, View(), ListenOn);
      scb.TcpListen();
    }
  }
}
