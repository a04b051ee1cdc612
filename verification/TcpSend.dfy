/**
 The sending half of a connection over whole runs (kernel/net/tcp.c): how far the peer has
 acknowledged, what was sent of the text accepted, and the FIN.
 */
module TcpSend {
  import opened Common
  import opened Tcp

  function Max(a: nat, b: nat): nat { if a >= b then a else b }

  // ---------------------------------------------------------------- snd.unack

  /** Tcp states in which an acknowledgement is recorded. */
  predicate Recording(st: SockState) { st == ESTAB || st == FIN_WAIT_1 || st == FIN_WAIT_2 || st == CLOSE_WAIT }

  /** The segment is for this block. */
  predicate Taken(t: Tcb, s: Seg) { !t.freed && Matches(t, s) && t.dport == s.dport }

  /** The segment reaches the acknowledgement stage. */
  predicate AckStage(t: Tcb, s: Seg) {
    Taken(t, s) && s.flags.ack && !s.flags.rst && !s.flags.syn && SeqValid(t.rcvWnd, t.rcvNxt, s.seqno, |s.text|)
  }

  /** What an arriving segment acknowledges: 0 when nothing, or nothing that was sent. */
  function AckOf(t: Tcb, s: Seg): nat {
    if AckStage(t, s) && Recording(t.state) && s.ackno <= t.sndNxt then s.ackno
    else if Taken(t, s) && t.state == SYN_SENT && s.flags.syn && s.flags.ack && !s.flags.rst && s.ackno == 1 then 1
    else 0
  }

  /** The greatest number acknowledged in a run. */
  function Acked(c: Conn, run: seq<Action>): nat
    decreases |run|
  {
    if |run| == 0 then 0
    else Max(if run[0].Arrive? then AckOf(c.t, run[0].s) else 0, Acked(Do(c, run[0]), run[1..]))
  }

  lemma AckMoves(t: Tcb, s: Seg)
    requires Recording(t.state)
    ensures CheckAck(t, s).0.sndUnack ==
              if s.flags.ack && s.ackno <= t.sndNxt then Max(t.sndUnack, s.ackno) else t.sndUnack
  {
  }

  lemma CoreUnack(t: Tcb, s: Seg)
    requires HandshakeInv(t) && Synchronized(t.state) && Taken(t, s)
    ensures RecvCore(t, s).0.sndUnack == Max(t.sndUnack, AckOf(t, s))
  {
    hide SeqValid, RecvText;
    TextKeeps(CheckAck(t, s).0, s);
    if Recording(t.state) { AckMoves(t, s); hide CheckAck; }
  }

  lemma ArriveUnack(t: Tcb, s: Seg)
    requires HandshakeInv(t) && !t.freed
    ensures Recv(t, s).sndUnack == Max(t.sndUnack, AckOf(t, s))
  {
    hide RecvCore, SeqValid;
    if Synchronized(t.state) && Taken(t, s) { CoreUnack(t, s); }
  }

  lemma StepUnack(p: Peer, c: Conn, a: Action)
    requires HandshakeInv(c.t) && Enabled(p, c, a)
    ensures Do(c, a).t.sndUnack == Max(c.t.sndUnack, if a.Arrive? then AckOf(c.t, a.s) else 0)
  {
    hide Recv, Flush, ReadPass, AckOf;
    match a
    case Arrive(s, _) => ArriveUnack(c.t, s);
    case SendText(psh, len) => FlushKeeps(c.t.(txq := []), c.t.txq + [TxBuf(c.t.sndNxt, ACK.(psh := psh), len)]);
    case _ =>
  }

  lemma {:induction false} RunUnack(p: Peer, c: Conn, run: seq<Action>)
    requires HandshakeInv(c.t) && ValidRun(p, c, run)
    ensures Run(c, run).t.sndUnack == Max(c.t.sndUnack, Acked(c, run))
    decreases |run|
  {
    hide HandshakeInv, Do, Enabled, AckOf;
    if |run| > 0 {
      StepHandshake(p, c, run[0]);
      StepUnack(p, c, run[0]);
      RunUnack(p, Do(c, run[0]), run[1..]);
    }
  }

  /**
   In every run, snd.unack is the greatest acknowledgement number of what was sent among the
   segments that reached the acknowledgement stage.
   */
  lemma UnackExactly(p: Peer, run: seq<Action>)
    requires ValidRun(p, START, run)
    ensures Run(START, run).t.sndUnack == Acked(START, run)
  {
    StartInv(p);
    RunUnack(p, START, run);
  }

  // ---------------------------------------------------------------- text and FIN sent

  /** The text in the segments sent. */
  function TextSent(outs: seq<Out>): nat
    decreases |outs|
  {
    if |outs| == 0 then 0 else TextSent(outs[..|outs| - 1]) + outs[|outs| - 1].len
  }

  /** The FINs sent. */
  function Fins(outs: seq<Out>): nat
    decreases |outs|
  {
    if |outs| == 0 then 0 else Fins(outs[..|outs| - 1]) + (if outs[|outs| - 1].flags.fin then 1 else 0)
  }

  /** The SYNs sent, all with the initial sequence number 0. */
  function Syns(outs: seq<Out>): nat
    decreases |outs|
  {
    if |outs| == 0 then 0
    else
      var o := outs[|outs| - 1];
      Syns(outs[..|outs| - 1]) + (if o.flags.syn && o.seqno == 0 then 1 else 0)
  }

  lemma OneMore(outs: seq<Out>, o: Out)
    ensures Syns(outs + [o]) == Syns(outs) + (if o.flags.syn && o.seqno == 0 then 1 else 0)
    ensures TextSent(outs + [o]) == TextSent(outs) + o.len
    ensures Fins(outs + [o]) == Fins(outs) + (if o.flags.fin then 1 else 0)
  {
    assert (outs + [o])[..|outs|] == outs;
  }

  predicate NoFin(q: seq<TxBuf>) { forall i :: 0 <= i < |q| ==> !q[i].flags.fin && !q[i].flags.syn }

  lemma {:induction false} FlushSends(t: Tcb, q: seq<TxBuf>)
    requires NoFin(q)
    ensures forall n: nat :: t.sndNxt == Wrapped(n) ==> Flush(t, q).sndNxt == Wrapped(n + QueuedLen(q))
    ensures var t' := Flush(t, q);
            && TextSent(t'.out) == TextSent(t.out) + QueuedLen(q) && Fins(t'.out) == Fins(t.out)
            && Syns(t'.out) == Syns(t.out)
    decreases |q|
  {
    hide Add, Wrapped;
    if |q| > 0 {
      var o := Out(q[0].seqno, if q[0].flags.ack then t.rcvNxt else 0, t.rcvWnd, q[0].flags, q[0].len);
      var t1 := Emit(t, q[0].seqno, t.rcvNxt, q[0].flags, q[0].len).(sndNxt := Add(t.sndNxt, q[0].len));
      OneMore(t.out, o);
      FlushSends(t1, q[1..]);
      forall n: nat | t.sndNxt == Wrapped(n) ensures Flush(t, q).sndNxt == Wrapped(n + QueuedLen(q)) {
        AddWrapped(n, q[0].len);
        assert t1.sndNxt == Wrapped(n + q[0].len);
      }
    }
  }

  /** A count as a 32-bit number. */
  function Wrapped(n: nat): nat { n % U32 }

  lemma AddWrapped(a: nat, b: nat)
    ensures Add(Wrapped(a), b) == Wrapped(a + b)
  {
  }

  lemma WrappedSmall()
    ensures Wrapped(0) == 0 && Wrapped(1) == 1
  {
  }

  /** The numbers used up: one for the SYN, the text, one for a FIN. */
  function Numbered(t: Tcb): nat {
    if t.state == CLOSED || t.state == LISTEN then 0 else 1 + TextSent(t.out) + Fins(t.out)
  }

  predicate Early(st: SockState) { st == CLOSED || st == LISTEN || st == SYN_SENT || st == SYN_RCVD }

  /** The FIN sent has the number before the next one. */
  predicate FinLast(t: Tcb) { exists i :: 0 <= i < |t.out| && t.out[i].flags.fin && Add(t.out[i].seqno, 1) == t.sndNxt }

  predicate OpenInv(c: Conn) {
    var t := c.t;
    && ((t.state == CLOSED || t.state == LISTEN) ==> t.raddr == 0)
    && (Early(t.state) ==> TextSent(t.out) == 0)
    && Syns(t.out) == (if t.state == CLOSED || t.state == LISTEN then 0 else 1)
    && Fins(t.out) == (if Closing(t.state) then 1 else 0)
    && (Closing(t.state) ==> FinLast(t) && c.closed)
    && t.sndNxt == Wrapped(Numbered(t))
    && (!c.closed ==> NoFin(t.txq))
  }

  /** Text accepted is sent or queued, and there is at most one FIN. */
  predicate SentInv(c: Conn) {
    && TextSent(c.t.out) + QueuedLen(c.t.txq) == c.sent
    && Fins(c.t.out) <= 1
    && (!c.t.freed ==> OpenInv(c))
  }

  /** A step that sends at most one segment, neither text nor FIN, and a SYN if asked to. */
  predicate Bare(outs: seq<Out>, outs': seq<Out>, syn: bool) {
    || (outs' == outs && !syn)
    || (|outs'| == |outs| + 1 && outs <= outs' && outs'[|outs|].len == 0 && !outs'[|outs|].flags.fin
        && outs'[|outs|].flags.syn == syn && (syn ==> outs'[|outs|].seqno == 0))
  }

  lemma BareCounts(outs: seq<Out>, outs': seq<Out>, syn: bool)
    requires Bare(outs, outs', syn)
    ensures Syns(outs') == Syns(outs) + (if syn then 1 else 0)
    ensures TextSent(outs') == TextSent(outs) && Fins(outs') == Fins(outs) && outs <= outs'
  {
    if outs' != outs {
      assert outs' == outs + [outs'[|outs|]];
      OneMore(outs, outs'[|outs|]);
    }
  }

  /** What an arriving segment does to the sending half. */
  predicate Answers(t: Tcb, t': Tcb) {
    && Bare(t.out, t'.out, t.state == LISTEN && t'.state == SYN_RCVD) && t'.txq == t.txq
    && (t'.freed || (t'.state == t.state && t'.sndNxt == t.sndNxt && t'.raddr == t.raddr) || Advances(t, t'))
  }

  predicate Advances(t: Tcb, t': Tcb) {
    || (t.state == LISTEN && t'.state == SYN_RCVD && t'.sndNxt == 1)
    || (t.state == SYN_SENT && (t'.state == ESTAB || t'.state == SYN_SENT) && t'.sndNxt == 1)
    || (t.state == SYN_RCVD && (t'.state == ESTAB || t'.state == CLOSE_WAIT) && t'.sndNxt == t.sndNxt)
    || (t.state == ESTAB && t'.state == CLOSE_WAIT && t'.sndNxt == t.sndNxt)
    || (t.state == FIN_WAIT_1 && t'.state == FIN_WAIT_2 && t'.sndNxt == t.sndNxt)
  }

  lemma TextAnswers(t: Tcb, s: Seg)
    ensures var t' := RecvText(t, s).0;
            && Bare(t.out, t'.out, false) && t'.txq == t.txq && t'.sndNxt == t.sndNxt && t'.raddr == t.raddr
            && (t'.state == t.state || ((t.state == SYN_RCVD || t.state == ESTAB) && t'.state == CLOSE_WAIT))
  {
    hide Add;
  }

  lemma AcceptedAnswers(t: Tcb, s: Seg)
    requires HandshakeInv(t) && Synchronized(t.state) && !t.freed
    ensures var (t', code) := RecvAccepted(t, s);
            && Bare(t.out, t'.out, false) && t'.txq == t.txq
            && (code == CLOSE_SCB || (t'.state == t.state && t'.sndNxt == t.sndNxt && t'.raddr == t.raddr)
                || Advances(t, t'))
  {
    hide CheckAck, RecvText;
    AckKeeps(t, s);
    AckCloses(t, s);
    TextAnswers(CheckAck(t, s).0, s);
  }

  lemma AckCloses(t: Tcb, s: Seg)
    ensures var (t1, code) := CheckAck(t, s); t1.state == CLOSED && t.state != CLOSED ==> code == CLOSE_SCB
  {
  }

  lemma ArriveAnswers(t: Tcb, s: Seg)
    requires HandshakeInv(t) && !t.freed
    ensures Answers(t, Recv(t, s))
  {
    hide RecvAccepted, SeqValid, Add;
    if Synchronized(t.state) { AcceptedAnswers(t, s); }
  }

  lemma ArriveSent(c: Conn, s: Seg)
    requires HandshakeInv(c.t) && SentInv(c) && !c.t.freed
    ensures SentInv(Arrived(c, s))
  {
    hide Recv, TextSent, Fins, Syns, HandshakeInv, QueuedLen, Add, Wrapped;
    WrappedSmall();
    ArriveAnswers(c.t, s);
    BareCounts(c.t.out, Recv(c.t, s).out, c.t.state == LISTEN && Recv(c.t, s).state == SYN_RCVD);
    if Closing(c.t.state) && !Recv(c.t, s).freed {
      FinStays(c.t, Recv(c.t, s));
    }
  }

  lemma FinStays(t: Tcb, t': Tcb)
    requires FinLast(t) && t.out <= t'.out && t'.sndNxt == t.sndNxt
    ensures FinLast(t')
  {
    var i :| 0 <= i < |t.out| && t.out[i].flags.fin && Add(t.out[i].seqno, 1) == t.sndNxt;
    assert t'.out[i] == t.out[i];
  }

  lemma QueueOne(q: seq<TxBuf>, m: TxBuf)
    ensures QueuedLen(q + [m]) == QueuedLen(q) + m.len
  {
    QueuedLenConcat(q, [m]);
    QueuedLenOne(m);
  }

  lemma SendSent(p: Peer, c: Conn, psh: bool, len: nat)
    requires HandshakeInv(c.t) && SentInv(c) && Enabled(p, c, SendText(psh, len))
    ensures SentInv(Do(c, SendText(psh, len)))
  {
    hide Flush, TextSent, Fins, Syns, QueuedLen, Add, Wrapped;
    var m := TxBuf(c.t.sndNxt, ACK.(psh := psh), len);
    QueueOne(c.t.txq, m);
    QueuedLenEmpty();
    FlushSends(c.t.(txq := []), c.t.txq + [m]);
    FlushKeeps(c.t.(txq := []), c.t.txq + [m]);
    WrappedSmall();
  }

  lemma CloseSent(p: Peer, c: Conn)
    requires HandshakeInv(c.t) && SentInv(c) && Enabled(p, c, CloseIt)
    ensures SentInv(Do(c, CloseIt))
  {
    hide TextSent, Fins, Syns, QueuedLen, Add, Wrapped, HandshakeInv, Recv, Send;
    WrappedSmall();
    var t := c.t;
    QueueOne(t.txq, TxBuf(t.sndNxt, FIN_ACK, 0));
    var o := Out(t.sndNxt, t.rcvNxt, t.rcvWnd, FIN_ACK, 0);
    OneMore(t.out, o);
    AddWrapped(Numbered(t), 1);
    var t' := Close(t).0;
    if t'.out != t.out {
      assert t'.out == t.out + [o] && t'.out[|t.out|] == o;
    }
  }

  lemma ConnectSent(c: Conn, raddr: nat, dport: nat)
    requires HandshakeInv(c.t) && SentInv(c) && !c.t.freed && c.t.state == CLOSED
    ensures SentInv(Do(c, ConnectTo(raddr, dport)))
  {
    hide TextSent, Fins, Syns, QueuedLen, Add, Wrapped, Send, Close, Recv;
    AddOne();
    WrappedSmall();
    BareCounts(c.t.out, Connect(c.t, raddr, dport).out, true);
  }

  /** Reading touches the receiving half only. */
  lemma ReadSent(c: Conn, c': Conn)
    requires SentInv(c) && c'.closed == c.closed && c'.sent == c.sent
    requires c'.t == c.t.(rxq := c'.t.rxq, rcvWnd := c'.t.rcvWnd)
    ensures SentInv(c')
  {
    hide TextSent, Fins, Syns, QueuedLen, Add, Wrapped;
  }

  lemma StepSent(p: Peer, c: Conn, a: Action)
    requires HandshakeInv(c.t) && SentInv(c) && Enabled(p, c, a)
    ensures SentInv(Do(c, a))
  {
    hide SentInv, HandshakeInv, Recv, Send, Close, Connect, ReadPass;
    match a
    case Arrive(s, _) => ArriveSent(c, s);
    case SendText(psh, len) => SendSent(p, c, psh, len);
    case CloseIt => CloseSent(p, c);
    case ConnectTo(raddr, dport) => ConnectSent(c, raddr, dport);
    case ListenOn => ListenSent(c);
    case _ =>
      ReadSent(c, Do(c, a));
  }

  lemma ListenSent(c: Conn)
    requires SentInv(c) && c.t.state == CLOSED
    ensures SentInv(Do(c, ListenOn))
  {
    hide TextSent, Fins, Syns, QueuedLen, Add, Wrapped, Send, Close, Recv;
  }

  lemma {:induction false} RunSent(p: Peer, c: Conn, run: seq<Action>)
    requires HandshakeInv(c.t) && SentInv(c) && ValidRun(p, c, run)
    ensures SentInv(Run(c, run))
    decreases |run|
  {
    hide HandshakeInv, SentInv, Do, Enabled;
    if |run| > 0 {
      StepHandshake(p, c, run[0]);
      StepSent(p, c, run[0]);
      RunSent(p, Do(c, run[0]), run[1..]);
    }
  }

  /**
   In every run the text in the segments sent and the text queued make up the text accepted; at
   most one FIN is sent, and in FIN_WAIT_1, FIN_WAIT_2 and LAST_ACK one was, with the number before
   snd.nxt_seq; exactly one SYN was sent, with the number 0, unless the block is closed or listening;
   and snd.nxt_seq counts the SYN, the text sent and the FIN.
   */
  lemma SentExactly(p: Peer, run: seq<Action>)
    requires ValidRun(p, START, run)
    ensures var c := Run(START, run);
            && TextSent(c.t.out) + QueuedLen(c.t.txq) == c.sent
            && Fins(c.t.out) <= 1
            && (!c.t.freed ==> Fins(c.t.out) == (if Closing(c.t.state) then 1 else 0))
            && (!c.t.freed && Closing(c.t.state) ==> FinLast(c.t))
            && (!c.t.freed ==> Syns(c.t.out) == (if c.t.state == CLOSED || c.t.state == LISTEN then 0 else 1))
            && (!c.t.freed ==> c.t.sndNxt == Wrapped(Numbered(c.t)))
  {
    hide Do, Enabled, Run, HandshakeInv, SentInv, TextSent, Fins, Syns, QueuedLen, FinLast, Numbered, Wrapped;
    StartInv(p);
    StartSent();
    RunSent(p, START, run);
    SentParts(Run(START, run));
  }

  lemma SentParts(c: Conn)
    requires SentInv(c)
    ensures TextSent(c.t.out) + QueuedLen(c.t.txq) == c.sent && Fins(c.t.out) <= 1
    ensures !c.t.freed ==>
              && Fins(c.t.out) == (if Closing(c.t.state) then 1 else 0)
              && (Closing(c.t.state) ==> FinLast(c.t))
              && Syns(c.t.out) == (if c.t.state == CLOSED || c.t.state == LISTEN then 0 else 1)
              && c.t.sndNxt == Wrapped(Numbered(c.t))
  {
    hide TextSent, Fins, Syns, QueuedLen, FinLast, Numbered, Wrapped;
  }

  lemma StartSent()
    ensures SentInv(START)
  {
  }

  lemma AddOne()
    ensures Add(0, 1) == 1
  {
  }

  // ---------------------------------------------------------------- after the close

  lemma StepClosed(p: Peer, c: Conn, a: Action)
    requires HandshakeInv(c.t) && Enabled(p, c, a) && c.closed
    ensures var c' := Do(c, a);
            && c'.closed && Fins(c'.t.out) == Fins(c.t.out) && TextSent(c'.t.out) == TextSent(c.t.out)
            && c'.t.txq == c.t.txq
  {
    hide Recv, TextSent, Fins, Syns, HandshakeInv, ReadPass;
    if a.Arrive? {
      ArriveAnswers(c.t, a.s);
      BareCounts(c.t.out, Recv(c.t, a.s).out, c.t.state == LISTEN && Recv(c.t, a.s).state == SYN_RCVD);
    }
  }

  lemma {:induction false} RunClosed(p: Peer, c: Conn, run: seq<Action>)
    requires HandshakeInv(c.t) && ValidRun(p, c, run) && c.closed
    ensures var c' := Run(c, run);
            Fins(c'.t.out) == Fins(c.t.out) && TextSent(c'.t.out) == TextSent(c.t.out) && c'.t.txq == c.t.txq
    decreases |run|
  {
    hide HandshakeInv, Do, Enabled, TextSent, Fins;
    if |run| > 0 {
      StepHandshake(p, c, run[0]);
      StepClosed(p, c, run[0]);
      RunClosed(p, Do(c, run[0]), run[1..]);
    }
  }

  /** tcp_close sends a FIN from here. */
  predicate SendsFin(t: Tcb) { t.state == ESTAB || t.state == CLOSE_WAIT || (t.state == SYN_RCVD && t.txq != []) }

  /**
   Whatever comes after a close, a FIN is sent exactly when the connection was established, or in
   SYN_RCVD with something queued; in SYN_RCVD with nothing queued the FIN is queued and stays
   there. Text that was queued at the close is never sent.
   */
  lemma CloseExactly(p: Peer, run: seq<Action>, more: seq<Action>)
    requires ValidRun(p, START, run) && Enabled(p, Run(START, run), CloseIt)
    requires ValidRun(p, Do(Run(START, run), CloseIt), more)
    ensures var c, d := Run(START, run), Run(Do(Run(START, run), CloseIt), more);
            && Fins(d.t.out) == (if SendsFin(c.t) then 1 else 0)
            && TextSent(d.t.out) == TextSent(c.t.out)
            && d.t.txq ==
                c.t.txq + (if c.t.state == SYN_RCVD && c.t.txq == [] then [TxBuf(c.t.sndNxt, FIN_ACK, 0)] else [])
  {
    hide HandshakeInv, SentInv, Enabled, Do, Run, TextSent, Fins, SendsFin;
    StartInv(p);
    StartSent();
    RunSent(p, START, run);
    RunHandshake(p, START, run);
    var c := Run(START, run);
    StepHandshake(p, c, CloseIt);
    Closes(p, c);
    RunClosed(p, Do(c, CloseIt), more);
  }

  lemma Closes(p: Peer, c: Conn)
    requires SentInv(c) && Enabled(p, c, CloseIt)
    ensures var d := Do(c, CloseIt);
            && d.closed && Fins(d.t.out) == (if SendsFin(c.t) then 1 else 0) && TextSent(d.t.out) == TextSent(c.t.out)
            && d.t.txq == c.t.txq + (if c.t.state == SYN_RCVD && c.t.txq == [] then [TxBuf(c.t.sndNxt, FIN_ACK, 0)]
                                     else [])
  {
    hide TextSent, Fins, Syns, QueuedLen, Numbered, Wrapped, FinLast;
    OneMore(c.t.out, Out(c.t.sndNxt, c.t.rcvNxt, c.t.rcvWnd, FIN_ACK, 0));
  }

  // ---------------------------------------------------------------- the event table

  /** What an arriving segment means for a block. */
  datatype Event =
    | Ignored                      // not for this block, or nothing in it to act on
    | Challenged                   // answered with an ACK and otherwise ignored
    | Refused(seqno: nat, ack: bool)   // answered with a RST
    | PassiveOpen | ActiveOpen     // a SYN to a listener; the SYN and ACK that answer ours
    | Reset                        // a RST in the window
    | Broken                       // a SYN in the window
    | Closed                       // an ACK in LAST_ACK
    | Ack(text: bool, fin: bool)   // acceptable; whether its text and its FIN are taken

  /** The segment's text is next in order and fits. */
  predicate TextNext(t: Tcb, s: Seg) { s.text != [] && s.seqno == t.rcvNxt && |s.text| < t.rcvWnd }

  /** Section 3.9 of RFC 793, "SEGMENT ARRIVES", as far as the code follows it: one row for each case. */
  function EventOf(t: Tcb, s: Seg): Event {
    var f := s.flags;
    if !Taken(t, s) && !(t.state == LISTEN && !t.freed && Matches(t, s)) then Ignored
    else
      match t.state
      case CLOSED => Ignored
      case LISTEN =>
        if f.rst then Ignored else if f.ack then Refused(s.ackno, true) else if f.syn then PassiveOpen else Ignored
      case SYN_SENT =>
        if f.ack && s.ackno != 1 then Refused(t.sndNxt, true)
        else if f.syn && f.ack && !f.rst then ActiveOpen else Ignored
      case _ =>
        if !SeqValid(t.rcvWnd, t.rcvNxt, s.seqno, |s.text|) then (if f.rst then Ignored else Challenged)
        else if f.rst then Reset
        else if f.syn then Broken
        else if !f.ack then Ignored
        else if t.state == LAST_ACK then Closed
        else if t.state == SYN_RCVD && s.ackno != 1 then Refused(t.sndNxt, false)
        else if t.state != SYN_RCVD && s.ackno < t.sndUnack then Ignored
        else if t.state != SYN_RCVD && t.sndNxt < s.ackno then Challenged
        else if t.state == CLOSE_WAIT then Ack(false, false)
        else Ack(TextNext(t, s), f.fin && !TextNext(t, s))
  }

  /** The state that an event leads to. */
  function StateAfter(st: SockState, e: Event): SockState {
    match e
    case PassiveOpen => SYN_RCVD
    case ActiveOpen => ESTAB
    case Reset => if st == SYN_RCVD then LISTEN else CLOSED
    case Closed => CLOSED
    case Ack(_, fin) =>
      if st == FIN_WAIT_1 || st == FIN_WAIT_2 then FIN_WAIT_2
      else if st == CLOSE_WAIT || fin then CLOSE_WAIT
      else ESTAB
    case _ => st
  }

  /** The events that end the connection. */
  predicate Frees(st: SockState, e: Event) {
    e.Reset? || e.Broken? || e.Closed? || (e.Ack? && e.fin && (st == FIN_WAIT_1 || st == FIN_WAIT_2))
  }

  /** The next sequence number expected after an event. */
  function NextAfter(t: Tcb, s: Seg, e: Event): nat {
    match e
    case PassiveOpen => Add(s.seqno, 1)
    case ActiveOpen => Add(s.seqno, 1)
    case Ack(text, fin) => Add(t.rcvNxt, if text then |s.text| else if fin then 1 else 0)
    case _ => t.rcvNxt
  }

  /** The segment sent in answer, with the window wnd. */
  function Answer(t: Tcb, s: Seg, e: Event, wnd: nat): seq<Out> {
    match e
    case Challenged => [Out(t.sndNxt, t.rcvNxt, wnd, ACK, 0)]
    case Refused(seqno, ack) =>
      [Out(seqno, if t.state == SYN_SENT then t.rcvNxt else 0, wnd, if ack then RST_ACK else RST, 0)]
    case PassiveOpen => [Out(0, Add(s.seqno, 1), wnd, SYN_ACK, 0)]
    case ActiveOpen => [Out(t.sndNxt, Add(s.seqno, 1), wnd, ACK, 0)]
    case Broken => [Out(s.ackno, 0, wnd, RST, 0)]
    case Ack(text, fin) => if text || fin then [Out(t.sndNxt, NextAfter(t, s, e), wnd, ACK, 0)] else []
    case _ => []
  }

  /** The block after an event. */
  predicate Follows(t: Tcb, s: Seg, e: Event, t': Tcb) {
    && t'.state == StateAfter(t.state, e) && t'.freed == Frees(t.state, e)
    && t'.rcvNxt == NextAfter(t, s, e)
    && t'.rcvWnd == (if e.PassiveOpen? then WND else if e.Ack? && e.text then t.rcvWnd - |s.text| else t.rcvWnd)
    && t'.rxq == t.rxq + (if e.Ack? && e.text then [RxBuf(s.text, s.flags.psh)] else [])
    && t'.out == t.out + Answer(t, s, e, t'.rcvWnd)
    && t'.txq == t.txq && t'.sndNxt == (if e.PassiveOpen? || e.ActiveOpen? then 1 else t.sndNxt)
    && (if t.state == LISTEN && e.PassiveOpen? then t'.raddr == s.raddr && t'.dport == s.dport
        else t'.raddr == t.raddr && t'.dport == t.dport)
  }

  lemma AddZero(n: nat)
    requires n < U32
    ensures Add(n, 0) == n
  {
  }

  lemma TextEvent(t: Tcb, s: Seg)
    requires t.state == ESTAB || t.state == FIN_WAIT_2
    ensures var (t', code) := RecvText(t, s);
            var text, fin := TextNext(t, s), s.flags.fin && !TextNext(t, s);
            && code == (if text then OK else if !fin then FREE_MBUF else if t.state == ESTAB then ERR else CLOSE_SCB)
            && t'.state == (if fin && t.state == ESTAB then CLOSE_WAIT else t.state)
            && t'.rcvNxt == (if text then Add(t.rcvNxt, |s.text|) else if fin then Add(t.rcvNxt, 1) else t.rcvNxt)
            && t'.rcvWnd == (if text then t.rcvWnd - |s.text| else t.rcvWnd)
            && t'.rxq == (if text then t.rxq + [RxBuf(s.text, s.flags.psh)] else t.rxq)
            && t'.out == (if text || fin then t.out + [Out(t.sndNxt, t'.rcvNxt, t'.rcvWnd, ACK, 0)] else t.out)
  {
    hide Add;
  }

  lemma AckEvent(t: Tcb, s: Seg)
    requires HandshakeInv(t) && Synchronized(t.state) && s.flags.ack
    ensures var (t1, code) := CheckAck(t, s);
            if t.state == LAST_ACK then t1 == t.(state := CLOSED) && code == CLOSE_SCB
            else if t.state == SYN_RCVD then (if s.ackno == 1 then t1 == t.(state := ESTAB) && code == OK
                                              else t1 == t && code == SND_RST)
            else if s.ackno < t.sndUnack then t1 == t && code == ERR
            else if t.sndNxt < s.ackno then t1 == t && code == SND_ACK
            else
              && code == OK && t1.state == (if t.state == FIN_WAIT_1 then FIN_WAIT_2 else t.state)
              && t1 == t.(state := t1.state, sndUnack := s.ackno, sndWnd := t1.sndWnd, sndWl1 := t1.sndWl1,
                          sndWl2 := t1.sndWl2)
  {
  }

  lemma AcceptedEvent(t: Tcb, s: Seg)
    requires HandshakeInv(t) && Synchronized(t.state) && Taken(t, s) && t.rcvNxt < U32
    requires SeqValid(t.rcvWnd, t.rcvNxt, s.seqno, |s.text|) && !s.flags.rst && !s.flags.syn
    ensures var (t', code) := RecvAccepted(t, s);
            Follows(t, s, EventOf(t, s), if code == CLOSE_SCB then t'.(freed := true) else t')
  {
    hide Add, CheckAck, RecvText, SeqValid;
    if !s.flags.ack {
      NoAckFlag(t, s);
    } else if EventOf(t, s).Ack? {
      AckFollows(t, s);
    } else {
      AckEvent(t, s);
    }
  }

  /** An acceptable acknowledgement, and then the text and the FIN. */
  lemma AckFollows(t: Tcb, s: Seg)
    requires HandshakeInv(t) && Synchronized(t.state) && Taken(t, s) && t.rcvNxt < U32 && EventOf(t, s).Ack?
    requires SeqValid(t.rcvWnd, t.rcvNxt, s.seqno, |s.text|) && !s.flags.rst && !s.flags.syn
    ensures var (t', code) := RecvAccepted(t, s);
            Follows(t, s, EventOf(t, s), if code == CLOSE_SCB then t'.(freed := true) else t')
  {
    hide Add, CheckAck, RecvText, SeqValid;
    AddZero(t.rcvNxt);
    AckEvent(t, s);
    var t1 := CheckAck(t, s).0;
    if t1.state == CLOSE_WAIT {
      NoText(t1, s);
    } else {
      TextEvent(t1, s);
      TextKeeps(t1, s);
    }
  }

  lemma NoText(t: Tcb, s: Seg)
    requires t.state == CLOSE_WAIT
    ensures RecvText(t, s) == (t, ERR)
  {
  }

  lemma NoAckFlag(t: Tcb, s: Seg)
    requires !s.flags.ack
    ensures CheckAck(t, s) == (t, ERR)
  {
  }

  /** tcp_recv does what the event table says. */
  lemma RecvFollows(t: Tcb, s: Seg)
    requires HandshakeInv(t) && !t.freed && (Synchronized(t.state) ==> t.rcvNxt < U32)
    ensures Follows(t, s, EventOf(t, s), Recv(t, s))
  {
    hide Add, RecvAccepted, SeqValid;
    AddOne();
    if Synchronized(t.state) && Taken(t, s) && !s.flags.rst && !s.flags.syn
       && SeqValid(t.rcvWnd, t.rcvNxt, s.seqno, |s.text|) { AcceptedEvent(t, s); }
  }

  lemma NextSmall(p: Peer, c: Conn)
    requires StreamInv(p, c) && !c.t.freed && Synchronized(c.t.state)
    ensures c.t.rcvNxt < U32
  {
    hide Got;
  }

  /**
   In every run tcp_recv, which checks a segment in stages, does what one look at the event table
   says: the state, whether the block is freed, the numbers, the queue and the answer.
   */
  lemma EventTable(p: Peer, run: seq<Action>, s: Seg)
    requires PeerOk(p) && ValidRun(p, START, run) && !Run(START, run).t.freed
    ensures var t := Run(START, run).t; Follows(t, s, EventOf(t, s), Recv(t, s))
  {
    hide Do, Enabled, HandshakeInv, StreamInv, Recv, EventOf, Follows, WindowInv, SendInv;
    StartInv(p);
    RunStream(p, START, run);
    RunHandshake(p, START, run);
    var c := Run(START, run);
    if Synchronized(c.t.state) { NextSmall(p, c); }
    RecvFollows(c.t, s);
  }

  /** A segment changes a block only when it is from the peer the block is connected to; port 0 is any address. */
  lemma OtherPeersIgnored(t: Tcb, s: Seg)
    requires t.state != LISTEN && Recv(t, s) != t
    ensures s.dport == t.dport && (t.dport != 0 ==> s.raddr == t.raddr)
  {
    hide RecvCore, RecvSynSent;
  }

  /** In every run the peer of a connection is the same from the SYN on, until the block is freed. */
  lemma SamePeer(p: Peer, run: seq<Action>, a: Action)
    requires PeerOk(p) && ValidRun(p, START, run) && Enabled(p, Run(START, run), a) && !Run(START, run).t.freed
    requires Run(START, run).t.state != CLOSED && Run(START, run).t.state != LISTEN
    ensures var t, t' := Run(START, run).t, Do(Run(START, run), a).t; t'.raddr == t.raddr && t'.dport == t.dport
  {
    hide Recv, Flush, ReadPass, Run, ValidRun;
    var c := Run(START, run);
    match a
    case Arrive(s, _) => EventTable(p, run, s);
    case SendText(psh, len) => SendKeeps(c.t, ACK.(psh := psh), len);
    case _ =>
  }

  // ---------------------------------------------------------------- what is taken is acknowledged

  /** The last acknowledgement owed was sent. */
  predicate UpToDate(t: Tcb) { exists i :: 0 <= i < |t.out| && IsAck(t.out[i]) && t.out[i].ackno == t.rcvNxt }

  predicate OwedInv(c: Conn) { !c.t.freed && Synchronized(c.t.state) ==> UpToDate(c.t) }

  lemma StaysUpToDate(t: Tcb, t': Tcb)
    requires UpToDate(t) && t.out <= t'.out && t'.rcvNxt == t.rcvNxt
    ensures UpToDate(t')
  {
    var i :| 0 <= i < |t.out| && IsAck(t.out[i]) && t.out[i].ackno == t.rcvNxt;
    assert t'.out[i] == t.out[i];
  }

  lemma ArriveOwed(t: Tcb, s: Seg)
    requires HandshakeInv(t) && !t.freed && (Synchronized(t.state) ==> t.rcvNxt < U32 && UpToDate(t))
    ensures var t' := Recv(t, s); !t'.freed && Synchronized(t'.state) ==> UpToDate(t')
  {
    hide Recv, Add, SeqValid, HandshakeInv, UpToDate;
    RecvFollows(t, s);
    var t', e := Recv(t, s), EventOf(t, s);
    if !t'.freed && Synchronized(t'.state) {
      if t'.rcvNxt == t.rcvNxt && Synchronized(t.state) {
        StaysUpToDate(t, t');
      } else {
        if Synchronized(t.state) { AddZero(t.rcvNxt); }
        Newly(t', |t.out|);
      }
    }
  }

  lemma Newly(t: Tcb, i: nat)
    requires i < |t.out| && IsAck(t.out[i]) && t.out[i].ackno == t.rcvNxt
    ensures UpToDate(t)
  {
  }


  lemma StepOwed(p: Peer, c: Conn, a: Action)
    requires StreamInv(p, c) && HandshakeInv(c.t) && OwedInv(c) && Enabled(p, c, a)
    ensures OwedInv(Do(c, a))
  {
    hide Recv, HandshakeInv, StreamInv, Flush, ReadPass, UpToDate;
    var t' := Do(c, a).t;
    match a
    case Arrive(s, _) =>
      if Synchronized(c.t.state) { NextSmall(p, c); }
      ArriveOwed(c.t, s);
    case SendText(psh, len) =>
      SendKeeps(c.t, ACK.(psh := psh), len);
      FlushAcks(c.t.(txq := []), c.t.txq + [TxBuf(c.t.sndNxt, ACK.(psh := psh), len)]);
      if Synchronized(c.t.state) { StaysUpToDate(c.t, t'); }
    case _ => if !c.t.freed && Synchronized(c.t.state) { StaysUpToDate(c.t, t'); }
  }

  lemma {:induction false} RunOwed(p: Peer, c: Conn, run: seq<Action>)
    requires PeerOk(p) && StreamInv(p, c) && HandshakeInv(c.t) && OwedInv(c) && ValidRun(p, c, run)
    ensures OwedInv(Run(c, run))
    decreases |run|
  {
    hide StreamInv, HandshakeInv, OwedInv, Do, Enabled;
    if |run| > 0 {
      StepStream(p, c, run[0]);
      StepHandshake(p, c, run[0]);
      StepOwed(p, c, run[0]);
      RunOwed(p, Do(c, run[0]), run[1..]);
    }
  }

  /** In every run, once the peer's SYN was taken, everything taken from the peer has been acknowledged. */
  lemma TakenIsAcked(p: Peer, run: seq<Action>)
    requires PeerOk(p) && ValidRun(p, START, run)
    ensures var t := Run(START, run).t; !t.freed && Synchronized(t.state) ==> UpToDate(t)
  {
    hide Do, Enabled, HandshakeInv, StreamInv, WindowInv, SendInv, UpToDate;
    StartInv(p);
    RunOwed(p, START, run);
  }

  /**
   A sockrecv call ends exactly when the block is gone or in CLOSE_WAIT, when nothing is queued on
   a socket that does not block, or when the buffer in front fills the room left or was pushed.
   */
  lemma CallEnds(c: Conn)
    requires c.call.Reading?
    ensures DoPass(c).call.Idle? <==>
              || !Readable(c.t)
              || (c.t.rxq == [] && c.call.nonblock)
              || (c.t.rxq != [] && (c.call.left <= |c.t.rxq[0].text| || c.t.rxq[0].psh))
  {
  }

  // ---------------------------------------------------------------- the end of the sending half

  /** The peer has acknowledged everything sent, the FIN with it. */
  predicate AllAcked(t: Tcb) { t.sndUnack == t.sndNxt }

  /**
   In every run FIN_WAIT_1 is left for FIN_WAIT_2 by any acceptable acknowledgement, and the FIN
   is then acknowledged exactly when the segment's number is snd.nxt_seq.
   */
  lemma FinWaitExactly(p: Peer, run: seq<Action>, s: Seg)
    requires PeerOk(p) && ValidRun(p, START, run) && Run(START, run).t.state == FIN_WAIT_1 && !Run(START, run).t.freed
    ensures var t := Run(START, run).t; var t' := Recv(t, s);
            && (t'.state == FIN_WAIT_2 <==> AckStage(t, s) && t.sndUnack <= s.ackno <= t.sndNxt)
            && (t'.state == FIN_WAIT_2 ==> (AllAcked(t') <==> s.ackno == t.sndNxt))
  {
    EventTable(p, run, s);
    RunHandshake(p, START, run) by { StartInv(p); }
    hide Do, Enabled, HandshakeInv, SeqValid, Recv, Add;
    ArriveUnack(Run(START, run).t, s);
  }

  /** LAST_ACK ends by any acknowledgement in the window, whether or not it is of the FIN. */
  lemma LastAckExactly(p: Peer, run: seq<Action>, s: Seg)
    requires PeerOk(p) && ValidRun(p, START, run) && Run(START, run).t.state == LAST_ACK && !Run(START, run).t.freed
    requires !s.flags.rst && !s.flags.syn
    ensures var t := Run(START, run).t; Recv(t, s).freed <==> AckStage(t, s)
  {
    EventTable(p, run, s);
    hide Do, Enabled, SeqValid, Recv, Add;
  }

  lemma CloseThenAck(c: Conn)
    requires Established(EARLY_PEER, c)
    ensures var c1 := Do(c, CloseIt); var a := Arrive(Data(101, ACK, []), 0);
            && Enabled(EARLY_PEER, c, CloseIt) && Enabled(EARLY_PEER, c1, a) && c1.t.state == FIN_WAIT_1
            && Do(c1, a).t.state == FIN_WAIT_2 && !Do(c1, a).t.freed && !AllAcked(Do(c1, a).t)
  {
  }

  /** An old acknowledgement takes the connection to FIN_WAIT_2 while the FIN is not acknowledged. */
  lemma EarlyFinWait()
    ensures exists run :: PeerOk(EARLY_PEER) && ValidRun(EARLY_PEER, START, run)
              && Run(START, run).t.state == FIN_WAIT_2 && !Run(START, run).t.freed && !AllAcked(Run(START, run).t)
  {
    hide OpenRun, Established, Enabled, Do, Run, ValidRun;
    var p, run := EARLY_PEER, OpenRun(EARLY_PEER);
    Opening(p);
    CloseThenAck(Run(START, run));
    RunThen(p, START, run, CloseIt);
    RunThen(p, START, run + [CloseIt], Arrive(Data(101, ACK, []), 0));
  }

  const QUIET_PEER: Peer := Peer(100, [])

  lemma FinThenAck(c: Conn)
    requires Established(QUIET_PEER, c)
    ensures var f, a := Arrive(Data(101, FIN_ACK, []), 0), Arrive(Data(102, ACK, []), 0);
            var c1 := Do(c, f); var c2 := Do(c1, CloseIt);
            && Enabled(QUIET_PEER, c, f) && Enabled(QUIET_PEER, c1, CloseIt) && Enabled(QUIET_PEER, c2, a)
            && c2.t.state == LAST_ACK && Do(c2, a).t.freed && !AllAcked(Do(c2, a).t)
  {
  }

  /** An old acknowledgement frees a block in LAST_ACK while its FIN is not acknowledged. */
  lemma EarlyLastAck()
    ensures exists run, a :: PeerOk(QUIET_PEER) && ValidRun(QUIET_PEER, START, run)
              && Enabled(QUIET_PEER, Run(START, run), a) && Run(START, run).t.state == LAST_ACK
              && Do(Run(START, run), a).t.freed && !AllAcked(Do(Run(START, run), a).t)
  {
    hide OpenRun, Established, Enabled, Do, Run, ValidRun;
    var p, run := QUIET_PEER, OpenRun(QUIET_PEER);
    var f, a := Arrive(Data(101, FIN_ACK, []), 0), Arrive(Data(102, ACK, []), 0);
    Opening(p);
    FinThenAck(Run(START, run));
    RunThen(p, START, run, f);
    RunThen(p, START, run + [f], CloseIt);
    assert Enabled(p, Run(START, run + [f] + [CloseIt]), a);
  }

  // ---------------------------------------------------------------- snd.wnd

  /** A window update: the segment's numbers and its window field. */
  datatype Update = Update(seqno: nat, ackno: nat, wnd: nat)

  /** ntohs of the window field: what the peer advertises. */
  function Advertised(w: nat): nat { w % 256 * 256 + w / 256 % 256 }

  /** The segment acknowledges something new and is not older than the last update. */
  predicate Newer(t: Tcb, s: Seg, u: Update) {
    && AckStage(t, s) && Recording(t.state) && t.sndUnack < s.ackno <= t.sndNxt
    && (u.seqno < s.seqno || (u.seqno == s.seqno && u.ackno <= s.ackno))
  }

  /** The last window update of a run. */
  function LastUpdate(c: Conn, run: seq<Action>, u: Update): Update
    decreases |run|
  {
    if |run| == 0 then u
    else
      var u' := if run[0].Arrive? && Newer(c.t, run[0].s, u)
                then Update(run[0].s.seqno, run[0].s.ackno, run[0].s.wnd) else u;
      LastUpdate(Do(c, run[0]), run[1..], u')
  }

  predicate WndIs(t: Tcb, u: Update) { t.sndWl1 == u.seqno && t.sndWl2 == u.ackno && t.sndWnd == Ntohl16(u.wnd) }

  lemma AckWnd(t: Tcb, s: Seg, u: Update)
    requires HandshakeInv(t) && Synchronized(t.state) && Taken(t, s) && WndIs(t, u)
    ensures WndIs(RecvCore(t, s).0, if Newer(t, s, u) then Update(s.seqno, s.ackno, s.wnd) else u)
  {
    hide SeqValid, RecvText, Ntohl16;
    TextKeeps(CheckAck(t, s).0, s);
  }

  lemma ArriveWnd(t: Tcb, s: Seg, u: Update)
    requires HandshakeInv(t) && !t.freed && WndIs(t, u)
    ensures WndIs(Recv(t, s), if Newer(t, s, u) then Update(s.seqno, s.ackno, s.wnd) else u)
  {
    hide RecvCore, SeqValid, Ntohl16;
    if Synchronized(t.state) && Taken(t, s) { AckWnd(t, s, u); }
  }

  lemma StepWnd(p: Peer, c: Conn, a: Action, u: Update)
    requires HandshakeInv(c.t) && Enabled(p, c, a) && WndIs(c.t, u)
    ensures WndIs(Do(c, a).t, if a.Arrive? && Newer(c.t, a.s, u) then Update(a.s.seqno, a.s.ackno, a.s.wnd) else u)
  {
    hide Recv, Flush, ReadPass, Newer, Ntohl16;
    match a
    case Arrive(s, _) => ArriveWnd(c.t, s, u);
    case SendText(psh, len) => SendKeeps(c.t, ACK.(psh := psh), len);
    case _ =>
  }

  lemma {:induction false} RunWnd(p: Peer, c: Conn, run: seq<Action>, u: Update)
    requires HandshakeInv(c.t) && ValidRun(p, c, run) && WndIs(c.t, u)
    ensures WndIs(Run(c, run).t, LastUpdate(c, run, u))
    decreases |run|
  {
    hide HandshakeInv, Do, Enabled, Newer, WndIs;
    if |run| > 0 {
      StepHandshake(p, c, run[0]);
      StepWnd(p, c, run[0], u);
      var u' := if run[0].Arrive? && Newer(c.t, run[0].s, u)
                then Update(run[0].s.seqno, run[0].s.ackno, run[0].s.wnd) else u;
      RunWnd(p, Do(c, run[0]), run[1..], u');
    }
  }

  lemma Scaled(w: nat)
    ensures Ntohl16(w) == 0x1_0000 * Advertised(w)
  {
  }

  /**
   In every run snd.wnd is 65536 times the window advertised by the last update, so that it is the
   window advertised exactly when that is 0.
   */
  lemma SendWindowScaled(p: Peer, run: seq<Action>)
    requires ValidRun(p, START, run)
    ensures var t, u := Run(START, run).t, LastUpdate(START, run, Update(0, 0, 0));
            && t.sndWl1 == u.seqno && t.sndWl2 == u.ackno && t.sndWnd == 0x1_0000 * Advertised(u.wnd)
            && (t.sndWnd == Advertised(u.wnd) <==> Advertised(u.wnd) == 0)
  {
    hide Do, Enabled, HandshakeInv, Run, LastUpdate, Ntohl16, Advertised, SendInv, StreamInv, WindowInv;
    StartInv(p);
    StartWnd();
    RunWnd(p, START, run, Update(0, 0, 0));
    Scaled(LastUpdate(START, run, Update(0, 0, 0)).wnd);
  }

  lemma StartWnd()
    ensures WndIs(START.t, Update(0, 0, 0))
  {
  }

  // ---------------------------------------------------------------- the acceptance test

  predicate Among(k: nat, first: nat, n: nat) { first <= k < first + n }

  /** Some number of the segment is in the window; a segment without text is one number. */
  ghost predicate Overlaps(wnd: nat, nxt: nat, seqno: nat, len: nat) {
    exists k :: Among(k, seqno, if len == 0 then 1 else len) && Among(k, nxt, wnd)
  }

  /**
   Where nothing wraps, the acceptance test takes a segment that has a number in the window,
   except one that starts before the window and ends after it; and with the window shut, an empty
   segment that is next.
   */
  lemma AcceptsExactly(wnd: nat, nxt: nat, seqno: nat, len: nat)
    requires nxt + wnd < U32 && seqno + len < U32
    ensures SeqValid(wnd, nxt, seqno, len) <==>
              if wnd == 0 then len == 0 && seqno == nxt
              else Overlaps(wnd, nxt, seqno, len) && !(seqno < nxt && nxt + wnd < seqno + len)
  {
    if wnd > 0 && SeqValid(wnd, nxt, seqno, len) {
      var k := if nxt <= seqno < nxt + wnd then seqno else seqno + len - 1;
      assert Among(k, seqno, if len == 0 then 1 else len) && Among(k, nxt, wnd);
    }
  }
}
