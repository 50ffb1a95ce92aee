/**
 The conversation between the guest tools and a VMware host, as a trace of
 backdoor calls, and the protocol such a trace has to follow. The protocol is a
 small automaton that knows nothing of the program; what it means for a whole
 trace (replies alternate with polls, a fresh channel starts with the reset
 reply, an RPCI channel lives inside one command) is proved from it.
 */
module Tclo {
  import opened Binary
  import opened Wrappers

  datatype Handle = Handle(channel: uint16, cookie1: uint32, cookie2: uint32)

  const NO_HANDLE: Handle := Handle(0, 0, 0)

  const BUFLEN: nat := 4096

  const REPLY_OK: string := "OK "
  const RESET_REPLY: string := "OK ATR toolbox"
  const REPLY_ERROR: string := "ERROR Unknown command"
  const BROADCAST_IP: string := "Set_Option broadcastIP 1"

  /** The long-lived channel on which the host sends commands, or a short-lived one for a single request. */
  datatype Role = TCLO | RPCI

  datatype Call =
    | Open(role: Role, h: Handle, ok: bool, about: string) // about: the request an RPCI channel is opened for
    | Send(role: Role, h: Handle, payload: string, ok: bool)
    | Poll(role: Role, h: Handle, length: nat, ok: bool)
    | Fetch(role: Role, h: Handle, length: nat, ok: bool, data: string)
    | Close(role: Role, h: Handle)
    | Command(text: string)   // a complete command has been received
    | Lookup(ok: bool)        // the guest looks up its own address
    | Refused(message: string) // a request that does not fit into the buffer

  const KNOWN: seq<string> := [
    "Capabilities_Register", "OS_Halt", "OS_PowerOn", "OS_Reboot", BROADCAST_IP, "ping", "reset", "OS_Resume",
    "OS_Suspend"
  ]

  /** The beginning of the message about the network cards. */
  const NETWORK_KEY: string := "SetGuestInfo  9 "

  /** Commands after which the machine goes down, so that nobody looks at the result of the reply. */
  predicate Last(command: string) {
    command == "OS_Halt" || command == "OS_Reboot"
  }

  /** The C string at the start of some data. */
  function CString(s: string): (r: string)
    ensures r <= s && '\0' !in r
    ensures |r| < |s| ==> s[|r|] == '\0'
  {
    if s == [] || s[0] == '\0' then "" else [s[0]] + CString(s[1..])
  }

  /** A C string ends at the first NUL, whatever comes behind it. */
  lemma CStringIs(s: string, r: string)
    requires r <= s && '\0' !in r && (|r| < |s| ==> s[|r|] == '\0')
    ensures CString(s) == r
  {
    var c := CString(s);
    assert forall i :: 0 <= i < |r| ==> s[i] == r[i] && r[i] in r;
    assert forall i :: 0 <= i < |c| ==> s[i] == c[i] && c[i] in c;
    assert |c| == |r|;
  }

  /** The reply the protocol demands for a command. */
  function ReplyTo(command: string): (reply: string) {
    if command == "reset" then RESET_REPLY
    else if command in KNOWN then REPLY_OK
    else REPLY_ERROR
  }

  /** The replies to the known commands, one by one. */
  lemma RepliesAre()
    ensures ReplyTo("reset") == "OK ATR toolbox"
    ensures ReplyTo("Capabilities_Register") == ReplyTo("Set_Option broadcastIP 1") == ReplyTo("ping") == "OK "
    ensures ReplyTo("OS_Halt") == ReplyTo("OS_Reboot") == ReplyTo("OS_PowerOn") == "OK "
    ensures ReplyTo("OS_Resume") == ReplyTo("OS_Suspend") == "OK "
  {
    var k := KNOWN;
    assert k[0] in k && k[1] in k && k[2] in k && k[3] in k && k[4] in k && k[5] in k && k[7] in k && k[8] in k;
  }

  lemma UnknownReply(command: string)
    requires command != "reset" && command != "ping" && command != "Capabilities_Register"
    requires command != "Set_Option broadcastIP 1" && command != "OS_Halt" && command != "OS_Reboot"
    requires command != "OS_PowerOn" && command != "OS_Resume" && command != "OS_Suspend"
    ensures ReplyTo(command) == "ERROR Unknown command"
  {
  }

  // ------------------------------------------------------------ the protocol

  datatype Channel =
    | Closed
    | Fresh                           // opened, owes the reset reply
    | Ready                           // has said its piece, polls next
    | Idle                            // a poll found nothing, owes an empty send
    | Offered(length: nat)            // a poll found a command of that length to fetch
    | Fetched                         // has the command
    | Owing(command: string)          // owes the reply to the command
    | Broken                          // a call failed, must be closed

  /** What is next on an RPCI channel; with `Over` nothing but its close. */
  datatype Errand = ToSend | ToPoll | ToFetch(length: nat) | Over

  /** As much as fits into the buffer with a NUL behind it. */
  function Cut(length: nat): (n: nat)
    ensures n <= length && n < BUFLEN && (length < BUFLEN ==> n == length) && (length >= BUFLEN ==> n == BUFLEN - 1)
  {
    if length >= BUFLEN then BUFLEN - 1 else length
  }

  /** `heard`: the data last received; `fault`: a call has failed for which the channel has to be closed. */
  datatype Talk = Talk(
    tclo: Channel, h: Handle, rpci: Option<Handle>, about: string, errand: Errand, heard: string, fault: bool,
    bad: bool)

  const SILENCE: Talk := Talk(Closed, NO_HANDLE, None, "", Over, "", false, false)

  predicate HasRole(c: Call) {
    c.Open? || c.Send? || c.Poll? || c.Fetch? || c.Close?
  }

  predicate OnTclo(c: Call) {
    HasRole(c) && c.role == TCLO
  }

  predicate TcloPoll(c: Call) {
    c.Poll? && c.role == TCLO
  }

  predicate TcloClose(c: Call) {
    c.Close? && c.role == TCLO
  }

  /**
   A failure that costs the channel: any call but the open on the channel itself,
   unless it is the last reply before the machine goes down, and any part of a
   request, unless the request is about the network cards.
   */
  predicate Fault(t: Talk, c: Call) {
    match c
    case Refused(_) => true
    case Open(role, _, ok, about) => !ok && role == RPCI && !(NETWORK_KEY <= about)
    case Send(role, _, _, ok) =>
      !ok && if role == RPCI then !(NETWORK_KEY <= t.about) else !(t.tclo.Owing? && Last(t.tclo.command))
    case Poll(role, _, _, ok) => !ok && (role == RPCI ==> !(NETWORK_KEY <= t.about))
    case Fetch(role, _, _, ok, _) => !ok && (role == RPCI ==> !(NETWORK_KEY <= t.about))
    case _ => false
  }

  function Bad(t: Talk): (t': Talk) {
    t.(bad := true)
  }

  function Go(t: Talk, allowed: bool, tclo: Channel): (t': Talk) {
    if allowed then t.(tclo := tclo) else Bad(t)
  }

  /** Everything about a command has been said: the channel goes on, or has to be closed. */
  function Settled(fault: bool): (tclo: Channel) {
    if fault then Broken else Ready
  }

  /** What the guest may say on the TCLO channel in each state, and where that leads. */
  function NextTclo(t: Talk, c: Call): (t': Talk)
    requires OnTclo(c)
  {
    match c
    case Open(_, h, ok, _) =>
      if t.tclo != Closed || (ok && h == NO_HANDLE) then Bad(t) else if ok then t.(tclo := Fresh, h := h) else t
    case Send(_, h, payload, ok) =>
      (match t.tclo
       case Fresh => Go(t, h == t.h && payload == RESET_REPLY, if ok then Ready else Broken)
       case Idle => Go(t, h == t.h && payload == "", if ok then Ready else Broken)
       case Owing(command) => Go(t, h == t.h && payload == ReplyTo(command), Settled(t.fault || Fault(t, c)))
       case _ => Bad(t))
    case Poll(_, h, length, ok) =>
      Go(t, t.tclo == Ready && h == t.h, if !ok then Broken else if length == 0 then Idle else Offered(length))
    case Fetch(_, h, length, ok, data) =>
      Go(t.(heard := data), t.tclo.Offered? && h == t.h && length == |data| == Cut(t.tclo.length),
         if ok then Fetched else Broken)
    case Close(_, h) =>
      if t.tclo == Broken && h == t.h then t.(tclo := Closed, h := NO_HANDLE) else Bad(t)
  }

  /**
   An RPCI channel is opened only while a command is being answered, carries the
   request it was opened for and then fetches the response if there is one, and is
   used alone until it is closed.
   */
  function NextRpci(t: Talk, c: Call): (t': Talk)
    requires HasRole(c) && c.role == RPCI
  {
    match c
    case Open(_, h, ok, about) =>
      if t.rpci != None || !t.tclo.Owing? then Bad(t)
      else if ok then t.(rpci := Some(h), about := about, errand := ToSend) else t
    case Send(_, h, payload, ok) => Proceed(t, h, t.errand == ToSend && payload == t.about, if ok then ToPoll else Over)
    case Poll(_, h, length, ok) =>
      Proceed(t, h, t.errand == ToPoll, if ok && length > 0 then ToFetch(length) else Over)
    case Fetch(_, h, length, _, _) => Proceed(t, h, t.errand.ToFetch? && length == Cut(t.errand.length), Over)
    case Close(_, h) => if t.rpci == Some(h) && t.errand == Over then t.(rpci := None) else Bad(t)
  }

  function Proceed(t: Talk, h: Handle, allowed: bool, errand: Errand): (t': Talk) {
    if t.rpci == Some(h) && allowed then t.(errand := errand) else Bad(t)
  }

  function Move(t: Talk, c: Call): (t': Talk) {
    match c
    case Command(text) => Go(t, t.tclo == Fetched && t.rpci == None && text == CString(t.heard), Owing(text))
    case Lookup(ok) =>
      if t.tclo != Owing(BROADCAST_IP) || t.rpci != None then Bad(t) else if ok then t else t.(tclo := Settled(t.fault))
    case Refused(message) => if t.tclo.Owing? && t.rpci == None && |message| >= BUFLEN then t else Bad(t)
    case _ =>
      if c.role == RPCI then NextRpci(t, c) else if t.rpci == None then NextTclo(t, c) else Bad(t)
  }

  function Next(t: Talk, c: Call): (t': Talk) {
    if t.bad then t else Move(t, c).(fault := !TcloClose(c) && (t.fault || Fault(t, c)))
  }

  function After(trace: seq<Call>): (t: Talk) {
    if trace == [] then SILENCE else Next(After(trace[..|trace| - 1]), trace[|trace| - 1])
  }

  /** The requests for which an RPCI channel was sought, in order. */
  function Requests(trace: seq<Call>): (rs: seq<string>) {
    if trace == [] then []
    else
      var c := trace[|trace| - 1];
      Requests(trace[..|trace| - 1]) + if c.Open? && c.role == RPCI then [c.about] else []
  }

  lemma RequestsSnoc(trace: seq<Call>, c: Call)
    ensures Requests(trace + [c]) == Requests(trace) + if c.Open? && c.role == RPCI then [c.about] else []
  {
    assert (trace + [c])[..|trace|] == trace;
  }

  ghost predicate Follows(trace: seq<Call>) {
    !After(trace).bad
  }

  lemma AfterSnoc(trace: seq<Call>, c: Call)
    ensures After(trace + [c]) == Next(After(trace), c)
  {
    assert (trace + [c])[..|trace|] == trace;
  }

  /** A trace that follows the protocol follows it at every moment. */
  lemma {:induction false} PrefixFollows(trace: seq<Call>, k: nat)
    requires Follows(trace) && k <= |trace|
    ensures Follows(trace[..k])
    decreases |trace|
  {
    if k == |trace| {
      assert trace[..k] == trace;
    } else {
      var n := |trace| - 1;
      PrefixFollows(trace[..n], k);
      assert trace[..n][..k] == trace[..k];
    }
  }

  lemma NextAt(trace: seq<Call>, k: nat)
    requires Follows(trace) && k < |trace|
    ensures After(trace[..k + 1]) == Next(After(trace[..k]), trace[k])
    ensures Follows(trace[..k]) && Follows(trace[..k + 1])
  {
    PrefixFollows(trace, k);
    PrefixFollows(trace, k + 1);
    assert trace[..k + 1][..k] == trace[..k];
  }

  // ---------------------------------------------- what it means for a whole trace

  /** A call that ends a stretch between two polls of one channel. */
  predicate Boundary(c: Call) {
    OnTclo(c) && (c.Poll? || c.Open? || c.Close?)
  }

  /** Between call `i` and call `j` one channel stays open and is not polled. */
  ghost predicate Stretch(trace: seq<Call>, i: nat, j: nat)
    ensures Stretch(trace, i, j) ==> i < j <= |trace|
  {
    i < j <= |trace| && forall k :: i < k < j ==> !Boundary(trace[k])
  }

  lemma StretchLess(trace: seq<Call>, i: nat, j: nat)
    requires Stretch(trace, i, j) && i + 1 < j
    ensures Stretch(trace, i, j - 1) && !Boundary(trace[j - 1])
  {
  }

  /** The number of sends on the TCLO channel among the calls `lo` to `hi`. */
  function Sends(trace: seq<Call>, lo: nat, hi: nat): (n: nat)
    requires lo <= hi <= |trace|
  {
    if lo == hi then 0 else Sends(trace, lo, hi - 1) + if OnTclo(trace[hi - 1]) && trace[hi - 1].Send? then 1 else 0
  }

  predicate FailedLookup(trace: seq<Call>, lo: nat, hi: nat)
    requires lo <= hi <= |trace|
  {
    exists k :: lo <= k < hi && trace[k].Lookup? && !trace[k].ok
  }

  /** How the state of the channel and what was said since the last poll fit together. */
  ghost predicate Balanced(t: Talk, sends: nat, silent: bool) {
    match t.tclo
    case Idle => sends == 0 && !silent
    case Offered(_) => sends == 0 && !silent
    case Fetched => sends == 0 && !silent
    case Owing(_) => sends == 0 && !silent
    case Ready => sends == if silent then 0 else 1
    case Broken => true
    case _ => false
  }

  predicate IsSend(c: Call) {
    OnTclo(c) && c.Send?
  }

  ghost predicate Said(trace: seq<Call>, lo: nat, hi: nat, reply: string)
    requires lo <= hi <= |trace|
  {
    exists k :: lo <= k < hi && IsSend(trace[k]) && trace[k].payload == reply
  }

  lemma SaidMore(trace: seq<Call>, lo: nat, hi: nat, reply: string)
    requires lo < hi <= |trace|
    ensures Said(trace, lo, hi, reply) <==>
              Said(trace, lo, hi - 1, reply) || (IsSend(trace[hi - 1]) && trace[hi - 1].payload == reply)
  {
  }

  predicate Opens(c: Call, role: Role) {
    c.Open? && c.role == role && c.ok
  }

  predicate RpciClose(c: Call) {
    c.Close? && c.role == RPCI
  }

  predicate IsFailedLookup(c: Call) {
    c.Lookup? && !c.ok
  }

  lemma BalancedNext(t: Talk, c: Call, sends: nat, silent: bool)
    requires !t.bad && !Next(t, c).bad && !Boundary(c) && Balanced(t, sends, silent)
    ensures Balanced(Next(t, c), sends + (if IsSend(c) then 1 else 0), silent || IsFailedLookup(c))
  {
  }

  lemma BalancedAfterPoll(t: Talk, c: Call)
    requires !t.bad && !Next(t, c).bad && TcloPoll(c)
    ensures Balanced(Next(t, c), 0, false)
  {
  }

  lemma FailedLookupMore(trace: seq<Call>, lo: nat, hi: nat)
    requires lo < hi <= |trace|
    ensures FailedLookup(trace, lo, hi) <==> FailedLookup(trace, lo, hi - 1) || IsFailedLookup(trace[hi - 1])
  {
  }

  lemma SendsMore(trace: seq<Call>, lo: nat, hi: nat)
    requires lo < hi <= |trace|
    ensures Sends(trace, lo, hi) == Sends(trace, lo, hi - 1) + if IsSend(trace[hi - 1]) then 1 else 0
  {
  }

  lemma NothingYet(trace: seq<Call>, lo: nat)
    requires lo <= |trace|
    ensures Sends(trace, lo, lo) == 0 && !FailedLookup(trace, lo, lo)
  {
  }

  lemma {:induction false} StretchBalanced(trace: seq<Call>, i: nat, m: nat)
    requires Follows(trace) && Stretch(trace, i, m) && TcloPoll(trace[i])
    ensures Balanced(After(trace[..m]), Sends(trace, i + 1, m), FailedLookup(trace, i + 1, m))
    decreases m
  {
    hide Next, Balanced, After, FailedLookup, Stretch, Sends;
    NextAt(trace, m - 1);
    if m == i + 1 {
      NothingYet(trace, m);
      BalancedAfterPoll(After(trace[..i]), trace[i]);
    } else {
      SendsMore(trace, i + 1, m);
      StretchLess(trace, i, m);
      StretchBalanced(trace, i, m - 1);
      BalancedNext(After(trace[..m - 1]), trace[m - 1], Sends(trace, i + 1, m - 1), FailedLookup(trace, i + 1, m - 1));
      FailedLookupMore(trace, i + 1, m);
    }
  }

  /**
   Alternation: between two successive polls of one open TCLO channel the guest
   sends exactly once, except that it sends nothing when it was asked to
   broadcast its address and could not look it up.
   */
  lemma Alternation(trace: seq<Call>, i: nat, j: nat)
    requires Follows(trace) && j < |trace| && Stretch(trace, i, j) && TcloPoll(trace[i]) && TcloPoll(trace[j])
    ensures Sends(trace, i + 1, j) == if FailedLookup(trace, i + 1, j) then 0 else 1
  {
    NextAt(trace, j);
    StretchBalanced(trace, i, j);
  }

  /** After an open the channel owes the reset reply, and has then sent that and nothing else. */
  ghost predicate Introduced(t: Talk, trace: seq<Call>, lo: nat, hi: nat)
    requires lo <= hi <= |trace|
  {
    match t.tclo
    case Fresh => Sends(trace, lo, hi) == 0
    case Ready => Sends(trace, lo, hi) == 1 && Said(trace, lo, hi, RESET_REPLY)
    case Broken => true
    case _ => false
  }

  lemma IntroducedNext(t: Talk, trace: seq<Call>, lo: nat, hi: nat)
    requires lo <= hi < |trace| && !t.bad && !Next(t, trace[hi]).bad && !Boundary(trace[hi])
    requires Introduced(t, trace, lo, hi)
    ensures Introduced(Next(t, trace[hi]), trace, lo, hi + 1)
  {
    hide Said, Sends;
    SendsMore(trace, lo, hi + 1);
    SaidMore(trace, lo, hi + 1, RESET_REPLY);
  }

  lemma IntroducedFresh(t: Talk, trace: seq<Call>, i: nat)
    requires i < |trace| && Opens(trace[i], TCLO) && !t.bad && !Next(t, trace[i]).bad
    ensures Introduced(Next(t, trace[i]), trace, i + 1, i + 1)
  {
  }

  lemma {:induction false} OpeningIntroduced(trace: seq<Call>, i: nat, m: nat)
    requires Follows(trace) && Stretch(trace, i, m) && Opens(trace[i], TCLO)
    ensures Introduced(After(trace[..m]), trace, i + 1, m)
    decreases m
  {
    hide After, Next, Introduced, Sends, Stretch;
    NextAt(trace, m - 1);
    if m == i + 1 {
      IntroducedFresh(After(trace[..i]), trace, i);
    } else {
      StretchLess(trace, i, m);
      OpeningIntroduced(trace, i, m - 1);
      IntroducedNext(After(trace[..m - 1]), trace, i + 1, m - 1);
    }
  }

  /** The first poll of a channel is preceded, since the open, by the reset reply and nothing else. */
  lemma FirstPoll(trace: seq<Call>, i: nat, j: nat)
    requires Follows(trace) && j < |trace| && Stretch(trace, i, j) && Opens(trace[i], TCLO) && TcloPoll(trace[j])
    ensures Sends(trace, i + 1, j) == 1 && Said(trace, i + 1, j, RESET_REPLY)
  {
    NextAt(trace, j);
    OpeningIntroduced(trace, i, j);
  }

  /** The channel opened by call `i` is closed before call `j`. */
  ghost predicate RpciClosed(trace: seq<Call>, i: nat, j: nat)
    requires i < j < |trace| && trace[i].Open?
  {
    exists k :: i < k < j && RpciClose(trace[k]) && trace[k].h == trace[i].h
  }

  predicate RpciSend(c: Call) {
    c.Send? && c.role == RPCI
  }

  /** No RPCI channel is closed between call `i` and call `j`. */
  ghost predicate KeepsRpci(trace: seq<Call>, i: nat, j: nat)
    ensures KeepsRpci(trace, i, j) ==> i < j <= |trace|
  {
    i < j <= |trace| && forall k :: i < k < j ==> !RpciClose(trace[k])
  }

  lemma RpciNext(t: Talk, c: Call)
    requires !t.bad && !Next(t, c).bad && t.rpci.Some? && !RpciClose(c)
    ensures !OnTclo(c) && Next(t, c).rpci == t.rpci && Next(t, c).about == t.about
  {
  }

  lemma RpciFirst(t: Talk, c: Call)
    requires !t.bad && !Next(t, c).bad && Opens(c, RPCI)
    ensures Next(t, c).rpci == Some(c.h) && Next(t, c).about == c.about
  {
  }

  lemma RpciLast(t: Talk, c: Call)
    requires !t.bad && !Next(t, c).bad && RpciClose(c)
    ensures t.rpci == Some(c.h)
  {
  }

  lemma {:induction false} RpciStaysOpen(trace: seq<Call>, i: nat, m: nat)
    requires Follows(trace) && KeepsRpci(trace, i, m) && Opens(trace[i], RPCI)
    ensures After(trace[..m]).rpci == Some(trace[i].h) && After(trace[..m]).about == trace[i].about
    ensures i + 1 < m ==> !OnTclo(trace[m - 1])
    decreases m
  {
    hide After, Next;
    NextAt(trace, m - 1);
    if m == i + 1 {
      RpciFirst(After(trace[..i]), trace[i]);
    } else {
      RpciStaysOpen(trace, i, m - 1);
      RpciNext(After(trace[..m - 1]), trace[m - 1]);
    }
  }

  /** Every RPCI channel is closed before anything more happens on the TCLO channel. */
  lemma RpciNested(trace: seq<Call>, i: nat, j: nat)
    requires Follows(trace) && i < j < |trace| && Opens(trace[i], RPCI) && OnTclo(trace[j])
    ensures RpciClosed(trace, i, j)
  {
    hide After, Next;
    if KeepsRpci(trace, i, j) {
      RpciStaysOpen(trace, i, j + 1);
    } else {
      var k := FirstRpciClose(trace, i, j);
      RpciStaysOpen(trace, i, k);
      NextAt(trace, k);
      RpciLast(After(trace[..k]), trace[k]);
    }
  }

  lemma {:induction false} FirstRpciClose(trace: seq<Call>, i: nat, j: nat) returns (k: nat)
    requires i < j <= |trace| && !KeepsRpci(trace, i, j)
    ensures i < k < j && RpciClose(trace[k]) && KeepsRpci(trace, i, k)
    decreases j
  {
    k :| i < k < j && RpciClose(trace[k]);
    if !KeepsRpci(trace, i, k) {
      k := FirstRpciClose(trace, i, k);
    }
  }

  /** What is sent on an RPCI channel is the request it was opened for. */
  lemma RpciCarriesRequest(trace: seq<Call>, i: nat, j: nat)
    requires Follows(trace) && j < |trace| && KeepsRpci(trace, i, j) && Opens(trace[i], RPCI) && RpciSend(trace[j])
    ensures trace[j].payload == trace[i].about && trace[j].h == trace[i].h
  {
    RpciStaysOpen(trace, i, j);
    NextAt(trace, j);
  }

  /** A whole errand: the request, the poll if it was sent, the response if one is there. */
  predicate WholeErrand(cs: seq<Call>) {
    && cs != [] && cs[0].Send?
    && if !cs[0].ok then |cs| == 1
       else
         && |cs| >= 2 && cs[1].Poll?
         && if !cs[1].ok || cs[1].length == 0 then |cs| == 2
            else |cs| == 3 && cs[2].Fetch? && cs[2].length == Cut(cs[1].length)
  }

  ghost predicate ErrandSoFar(errand: Errand, cs: seq<Call>) {
    match errand
    case ToSend => cs == []
    case ToPoll => |cs| == 1 && cs[0].Send? && cs[0].ok
    case ToFetch(n) => |cs| == 2 && cs[0].Send? && cs[0].ok && cs[1].Poll? && cs[1].ok && 0 < n == cs[1].length
    case Over => WholeErrand(cs)
  }

  lemma ErrandNext(t: Talk, c: Call, cs: seq<Call>)
    requires !t.bad && !Next(t, c).bad && t.rpci.Some? && !RpciClose(c) && ErrandSoFar(t.errand, cs)
    ensures ErrandSoFar(Next(t, c).errand, cs + [c])
  {
  }

  lemma ErrandFirst(t: Talk, c: Call)
    requires !t.bad && !Next(t, c).bad && Opens(c, RPCI)
    ensures ErrandSoFar(Next(t, c).errand, [])
  {
  }

  lemma ErrandLast(t: Talk, c: Call)
    requires !t.bad && !Next(t, c).bad && RpciClose(c)
    ensures t.errand == Over
  {
  }

  lemma {:induction false} ErrandGrows(trace: seq<Call>, i: nat, m: nat)
    requires Follows(trace) && KeepsRpci(trace, i, m) && Opens(trace[i], RPCI)
    ensures ErrandSoFar(After(trace[..m]).errand, trace[i + 1..m])
    decreases m
  {
    hide After, Next, ErrandSoFar, Follows;
    NextAt(trace, m - 1);
    if m == i + 1 {
      ErrandFirst(After(trace[..i]), trace[i]);
    } else {
      RpciStaysOpen(trace, i, m - 1);
      ErrandGrows(trace, i, m - 1);
      ErrandNext(After(trace[..m - 1]), trace[m - 1], trace[i + 1..m - 1]);
      assert trace[i + 1..m] == trace[i + 1..m - 1] + [trace[m - 1]];
    }
  }

  /** Between its open and its close an RPCI channel does its errand, and all of it. */
  lemma RpciErrand(trace: seq<Call>, i: nat, j: nat)
    requires Follows(trace) && j < |trace| && KeepsRpci(trace, i, j) && Opens(trace[i], RPCI) && RpciClose(trace[j])
    ensures WholeErrand(trace[i + 1..j])
  {
    hide After, Next, Follows, WholeErrand;
    ErrandGrows(trace, i, j);
    NextAt(trace, j);
    ErrandLast(After(trace[..j]), trace[j]);
  }

  lemma FetchedBy(t: Talk, c: Call)
    requires !t.bad && !Next(t, c).bad && Recorded(t) && Next(t, c).tclo == Fetched
    ensures OnTclo(c) && c.Fetch? && c.ok && Next(t, c).heard == c.data
  {
  }

  lemma CommandIs(t: Talk, c: Call)
    requires !t.bad && !Next(t, c).bad && c.Command?
    ensures t.tclo == Fetched && c.text == CString(t.heard)
  {
  }

  predicate JustFetched(trace: seq<Call>, j: nat)
    requires j < |trace| && trace[j].Command?
  {
    && 0 < j && OnTclo(trace[j - 1]) && trace[j - 1].Fetch? && trace[j - 1].ok
    && trace[j].text == CString(trace[j - 1].data)
  }

  /** A command is the text of the data fetched just before. */
  lemma CommandWasFetched(trace: seq<Call>, j: nat)
    requires Follows(trace) && j < |trace| && trace[j].Command?
    ensures JustFetched(trace, j)
  {
    hide Next, CString, Recorded;
    NextAt(trace, j);
    CommandIs(After(trace[..j]), trace[j]);
    assert trace[..0] == [];
    if 0 < j {
      NextAt(trace, j - 1);
      AlwaysRecorded(trace[..j - 1]);
      FetchedBy(After(trace[..j - 1]), trace[j - 1]);
    }
  }

  /** Every command received is answered by the reply the protocol demands, before the next poll. */
  lemma {:induction false} AnsweredBeforePoll(trace: seq<Call>, i: nat, j: nat)
    requires Follows(trace) && j < |trace| && Stretch(trace, i, j) && trace[i].Command? && TcloPoll(trace[j])
    ensures FailedLookup(trace, i + 1, j) || Said(trace, i + 1, j, ReplyTo(trace[i].text))
  {
    NextAt(trace, j);
    OwedUntilSaid(trace, i, j);
  }

  lemma OwingNext(t: Talk, c: Call)
    requires !t.bad && !Next(t, c).bad && t.tclo.Owing? && !Boundary(c)
    ensures Next(t, c).tclo == t.tclo || IsFailedLookup(c) || (IsSend(c) && c.payload == ReplyTo(t.tclo.command))
  {
  }

  lemma {:induction false} OwedUntilSaid(trace: seq<Call>, i: nat, m: nat)
    requires Follows(trace) && Stretch(trace, i, m) && trace[i].Command?
    ensures || After(trace[..m]).tclo == Owing(trace[i].text)
            || FailedLookup(trace, i + 1, m)
            || Said(trace, i + 1, m, ReplyTo(trace[i].text))
    decreases m
  {
    hide After, ReplyTo, Stretch;
    NextAt(trace, m - 1);
    if m > i + 1 {
      StretchLess(trace, i, m);
      OwedUntilSaid(trace, i, m - 1);
      FailedLookupMore(trace, i + 1, m);
      SaidMore(trace, i + 1, m, ReplyTo(trace[i].text));
      hide Said, FailedLookup;
      if After(trace[..m - 1]).tclo == Owing(trace[i].text) {
        OwingNext(After(trace[..m - 1]), trace[m - 1]);
        hide Next;
      }
    }
  }

  // ------------------------------------------------------------ error recovery

  /** Call `i` is a failure that costs the channel. */
  ghost predicate Faulty(trace: seq<Call>, i: nat)
    ensures Faulty(trace, i) ==> i < |trace|
  {
    i < |trace| && Fault(After(trace[..i]), trace[i])
  }

  ghost predicate FaultIn(trace: seq<Call>, lo: nat, hi: nat) {
    exists i: nat :: lo <= i < hi && Faulty(trace, i)
  }

  /** The TCLO channel is not closed by the calls `lo` to `hi`. */
  ghost predicate KeepsTclo(trace: seq<Call>, lo: nat, hi: nat)
    ensures KeepsTclo(trace, lo, hi) ==> lo <= hi <= |trace|
  {
    lo <= hi <= |trace| && forall k :: lo <= k < hi ==> !TcloClose(trace[k])
  }

  /**
   A fault is on record while the command is answered, and then the channel is
   broken; a broken channel has one on record.
   */
  ghost predicate Recorded(t: Talk) {
    && (t.fault ==> t.tclo.Owing? || t.tclo == Broken)
    && (t.tclo == Broken ==> t.fault)
    && (t.rpci.Some? ==> t.tclo.Owing?)
  }

  lemma RecordedNext(t: Talk, c: Call)
    requires !t.bad && !Next(t, c).bad && Recorded(t)
    ensures Recorded(Next(t, c))
  {
  }

  lemma {:induction false} AlwaysRecorded(trace: seq<Call>)
    requires Follows(trace)
    ensures Recorded(After(trace))
    decreases |trace|
  {
    if trace != [] {
      var n := |trace| - 1;
      assert trace[..n + 1] == trace;
      hide After, Next, Recorded;
      NextAt(trace, n);
      AlwaysRecorded(trace[..n]);
      RecordedNext(After(trace[..n]), trace[n]);
    }
  }

  lemma FaultNext(trace: seq<Call>, k: nat)
    requires Follows(trace) && k < |trace| && !TcloClose(trace[k])
    ensures After(trace[..k + 1]).fault <==> After(trace[..k]).fault || Faulty(trace, k)
  {
    NextAt(trace, k);
    hide After, Fault, Move;
  }

  lemma KeepsLess(trace: seq<Call>, lo: nat, hi: nat)
    requires KeepsTclo(trace, lo, hi) && lo < hi
    ensures KeepsTclo(trace, lo, hi - 1) && !TcloClose(trace[hi - 1])
  {
  }

  lemma FaultInMore(trace: seq<Call>, lo: nat, hi: nat)
    requires lo < hi
    ensures FaultIn(trace, lo, hi) <==> FaultIn(trace, lo, hi - 1) || Faulty(trace, hi - 1)
  {
    hide Faulty;
  }

  /** As long as the channel is not closed, a fault is on record if and only if there was one. */
  lemma {:induction false} FaultOnRecord(trace: seq<Call>, lo: nat, hi: nat)
    requires Follows(trace) && KeepsTclo(trace, lo, hi) && !After(trace[..lo]).fault
    ensures After(trace[..hi]).fault <==> FaultIn(trace, lo, hi)
    decreases hi
  {
    hide After, Faulty, KeepsTclo, Follows;
    if lo < hi {
      KeepsLess(trace, lo, hi);
      FaultNext(trace, hi - 1);
      FaultOnRecord(trace, lo, hi - 1);
      FaultInMore(trace, lo, hi);
    }
  }

  lemma {:induction false} FaultStays(trace: seq<Call>, i: nat, hi: nat)
    requires Follows(trace) && Faulty(trace, i) && i < hi && KeepsTclo(trace, i, hi)
    ensures After(trace[..hi]).fault
    decreases hi
  {
    hide After, Faulty, KeepsTclo, Follows;
    KeepsLess(trace, i, hi);
    FaultNext(trace, hi - 1);
    if i < hi - 1 {
      FaultStays(trace, i, hi - 1);
    }
  }

  /** After a fault the channel is closed before it, or any other, is polled again. */
  lemma FaultCloses(trace: seq<Call>, i: nat, j: nat)
    requires Follows(trace) && i < j < |trace| && Faulty(trace, i) && TcloPoll(trace[j])
    ensures exists k :: i < k < j && TcloClose(trace[k])
  {
    NextAt(trace, j);
    AlwaysRecorded(trace[..j]);
    if KeepsTclo(trace, i, j) {
      FaultStays(trace, i, j);
    } else {
      var k :| i <= k < j && TcloClose(trace[k]);
      assert k != i;
    }
  }

  lemma CauseLast(trace: seq<Call>, hi: nat)
    requires Follows(trace) && hi <= |trace| && After(trace[..hi]).fault
    ensures 0 < hi && !TcloClose(trace[hi - 1])
  {
    assert trace[..0] == [];
    if 0 < hi {
      NextAt(trace, hi - 1);
    }
  }

  lemma {:induction false} Cause(trace: seq<Call>, hi: nat) returns (i: nat)
    requires Follows(trace) && hi <= |trace| && After(trace[..hi]).fault
    ensures i < hi && Faulty(trace, i) && KeepsTclo(trace, i, hi)
    decreases hi
  {
    hide After, Faulty, Follows;
    CauseLast(trace, hi);
    i := hi - 1;
    FaultNext(trace, i);
    if !Faulty(trace, i) {
      i := Cause(trace, hi - 1);
    }
  }

  /** The channel is closed only for a fault since it was opened. */
  lemma ClosedForCause(trace: seq<Call>, j: nat)
    requires Follows(trace) && j < |trace| && TcloClose(trace[j])
    ensures exists i: nat :: i < j && Faulty(trace, i) && KeepsTclo(trace, i, j)
  {
    NextAt(trace, j);
    AlwaysRecorded(trace[..j]);
    var i := Cause(trace, j);
  }

  // ---------------------------------------------------- all of it, for one trace

  /** What the host can rely on. */
  ghost predicate Disciplined(trace: seq<Call>) {
    && (forall i: nat, j: nat :: Stretch(trace, i, j) && j < |trace| && TcloPoll(trace[i]) && TcloPoll(trace[j]) ==>
          Sends(trace, i + 1, j) == if FailedLookup(trace, i + 1, j) then 0 else 1)
    && (forall i: nat, j: nat :: Stretch(trace, i, j) && j < |trace| && Opens(trace[i], TCLO) && TcloPoll(trace[j]) ==>
          Sends(trace, i + 1, j) == 1 && Said(trace, i + 1, j, RESET_REPLY))
    && (forall i: nat, j: nat :: Stretch(trace, i, j) && j < |trace| && trace[i].Command? && TcloPoll(trace[j]) ==>
          FailedLookup(trace, i + 1, j) || Said(trace, i + 1, j, ReplyTo(trace[i].text)))
    && (forall j: nat :: j < |trace| && trace[j].Command? ==> JustFetched(trace, j))
    && (forall i: nat, j: nat :: Faulty(trace, i) && i < j < |trace| && TcloPoll(trace[j]) ==>
          !KeepsTclo(trace, i, j))
    && (forall j: nat :: j < |trace| && TcloClose(trace[j]) ==>
          exists i: nat :: i < j && Faulty(trace, i) && KeepsTclo(trace, i, j))
    && (forall i: nat, j: nat :: i < j < |trace| && Opens(trace[i], RPCI) && OnTclo(trace[j]) ==>
          RpciClosed(trace, i, j))
    && (forall i: nat, j: nat ::
          KeepsRpci(trace, i, j) && j < |trace| && Opens(trace[i], RPCI) && RpciSend(trace[j]) ==>
            trace[j].payload == trace[i].about && trace[j].h == trace[i].h)
    && (forall i: nat, j: nat ::
          KeepsRpci(trace, i, j) && j < |trace| && Opens(trace[i], RPCI) && RpciClose(trace[j]) ==>
            WholeErrand(trace[i + 1..j]))
  }

  lemma FollowsIsDisciplined(trace: seq<Call>)
    requires Follows(trace)
    ensures Disciplined(trace)
  {
    hide Stretch, Sends, Said, FailedLookup, After, Faulty;
    forall i: nat, j: nat | Stretch(trace, i, j) && i < j < |trace| && TcloPoll(trace[j])
      ensures TcloPoll(trace[i]) ==> Sends(trace, i + 1, j) == if FailedLookup(trace, i + 1, j) then 0 else 1
      ensures Opens(trace[i], TCLO) ==> Sends(trace, i + 1, j) == 1 && Said(trace, i + 1, j, RESET_REPLY)
      ensures trace[i].Command? ==> FailedLookup(trace, i + 1, j) || Said(trace, i + 1, j, ReplyTo(trace[i].text))
    {
      if TcloPoll(trace[i]) {
        Alternation(trace, i, j);
      }
      if Opens(trace[i], TCLO) {
        FirstPoll(trace, i, j);
      }
      if trace[i].Command? {
        AnsweredBeforePoll(trace, i, j);
      }
    }
    forall j: nat | j < |trace| && trace[j].Command?
      ensures JustFetched(trace, j)
    {
      CommandWasFetched(trace, j);
    }
    forall i: nat, j: nat | Faulty(trace, i) && i < j < |trace| && TcloPoll(trace[j])
      ensures !KeepsTclo(trace, i, j)
    {
      FaultCloses(trace, i, j);
    }
    forall j: nat | j < |trace| && TcloClose(trace[j])
      ensures exists i: nat :: i < j && Faulty(trace, i) && KeepsTclo(trace, i, j)
    {
      ClosedForCause(trace, j);
    }
    forall i: nat, j: nat | i < j < |trace| && Opens(trace[i], RPCI) && OnTclo(trace[j])
      ensures RpciClosed(trace, i, j)
    {
      RpciNested(trace, i, j);
    }
    hide KeepsRpci, KeepsTclo;
    forall i: nat, j: nat | KeepsRpci(trace, i, j) && i < j < |trace| && Opens(trace[i], RPCI) && RpciSend(trace[j])
      ensures trace[j].payload == trace[i].about && trace[j].h == trace[i].h
    {
      RpciCarriesRequest(trace, i, j);
    }
    hide WholeErrand;
    forall i: nat, j: nat | KeepsRpci(trace, i, j) && i < j < |trace| && Opens(trace[i], RPCI) && RpciClose(trace[j])
      ensures WholeErrand(trace[i + 1..j])
    {
      RpciErrand(trace, i, j);
    }
  }
}
