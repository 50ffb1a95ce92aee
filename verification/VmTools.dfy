/**
 The guest tools: the endless loop that keeps a TCLO channel to the host open,
 answers its commands, and on the way sends information over short-lived RPCI
 channels. The host is an arbitrary function from the number of a backdoor call
 to the registers and the data it answers with, except that a successful open of
 the TCLO channel does not hand out the all-zero handle that means "closed".
 */
module VmTools {
  import opened Binary
  import opened Wrappers
  import opened Tclo

  const LOOP_WAIT_MS: int := 5000

  /** The registers after a backdoor call, as far as the program looks at them. */
  datatype Frame = Frame(
    ebx: uint32, ecxLow: uint16, ecxHigh: uint16, edxLow: uint16, edxHigh: uint16, esi: uint32, edi: uint32)

  const ENH_DATA: uint32 := 0x0001_0000

  function Opened(f: Frame): (h: Handle) {
    Handle(f.edxHigh, f.esi, f.edi)
  }

  const STATE_COMMANDS: seq<string> := ["OS_Halt", "OS_Reboot", "OS_PowerOn", "OS_Resume", "OS_Suspend"]

  function StateCode(command: string): (code: string)
    ensures |code| == 1
  {
    if command == "OS_Halt" then "1"
    else if command == "OS_Reboot" then "2"
    else if command == "OS_PowerOn" then "3"
    else if command == "OS_Resume" then "4"
    else "5"
  }

  function StateMessage(command: string): (m: string)
    ensures |m| < BUFLEN
  {
    "tools.os.statechange.status 1 " + StateCode(command)
  }

  const CAPABILITIES: seq<string> := [
    "vmx.capability.unified_loop toolbox", "tools.capability.statechange ", "tools.set.version 2147483647"
  ]

  const OS_NAMES: seq<string> := ["SetGuestInfo  5 vorteil.io 1.0 amd64_x86", "SetGuestInfo  6 other-64"]

  /** The size of the network message for one to four cards; any other number is reported as one card. */
  function CardsLength(cards: int): (n: nat)
    ensures n < BUFLEN && n == 48 + 72 * if 1 <= cards <= 4 then cards else 1
  {
    if cards == 2 then 192 else if cards == 3 then 264 else if cards == 4 then 336 else 120
  }

  /** A request is made only if it fits into the buffer. */
  function Fitting(message: string): (rs: seq<string>) {
    if |message| < BUFLEN then [message] else []
  }

  /** Host name, network cards and, the first time, the names of the system. */
  ghost predicate IsGuestInfo(rs: seq<string>, hostname: string, cards: int, known: int) {
    exists net: string ::
      && |net| == CardsLength(cards) && NETWORK_KEY <= net
      && rs == Fitting(NameMessage(hostname)) + [net] + if known == 0 then OS_NAMES else []
  }

  ghost predicate IsPingInfo(
    rs: seq<string>, uptime: string, info: seq<string>, hostname: string, cards: int, known: int)
  {
    rs == Fitting(UptimeMessage(uptime)) + info && IsGuestInfo(info, hostname, cards, known)
  }

  function AddressMessage(ip: string): (m: string) {
    "info-set guestinfo.ip " + ip
  }

  function NameMessage(hostname: string): (m: string) {
    "SetGuestInfo  1 " + hostname
  }

  function UptimeMessage(uptime: string): (m: string) {
    "SetGuestInfo  7 " + uptime + "00"
  }

  /** None of the other messages begins like the one about the network cards. */
  lemma NotCards(command: string, text: string)
    ensures !(NETWORK_KEY <= StateMessage(command)) && !(NETWORK_KEY <= AddressMessage(text))
    ensures !(NETWORK_KEY <= NameMessage(text)) && !(NETWORK_KEY <= UptimeMessage(text))
    ensures !(NETWORK_KEY <= OS_NAMES[0]) && !(NETWORK_KEY <= OS_NAMES[1])
    ensures forall i :: 0 <= i < 3 ==> !(NETWORK_KEY <= CAPABILITIES[i])
  {
    assert NETWORK_KEY[0] == 'S' && NETWORK_KEY[14] == '9';
    assert StateMessage(command)[0] == 't' && AddressMessage(text)[0] == 'i';
    assert NameMessage(text)[14] == '1' && UptimeMessage(text)[14] == '7';
    assert OS_NAMES[0][14] == '5' && OS_NAMES[1][14] == '6';
    assert CAPABILITIES[0][0] == 'v' && CAPABILITIES[1][0] == 't' && CAPABILITIES[2][0] == 't';
  }

  /** The first thing done was to look up the address, and it was found. */
  predicate Found(before: seq<Call>, after: seq<Call>) {
    |before| < |after| && after[|before|] == Lookup(true)
  }

  /** The requests that a command leads to. */
  ghost predicate BelongTo(
    rs: seq<string>, command: string, hostname: string, cards: int, known: int, found: bool)
  {
    if command == "Capabilities_Register" then rs == CAPABILITIES
    else if command == "OS_Resume" then
      rs != [] && rs[|rs| - 1] == StateMessage(command) && IsGuestInfo(rs[..|rs| - 1], hostname, cards, known)
    else if command in STATE_COMMANDS then rs == [StateMessage(command)]
    else if command == BROADCAST_IP then if found then exists ip :: rs == Fitting(AddressMessage(ip)) else rs == []
    else if command == "ping" then
      exists uptime, info :: IsPingInfo(rs, uptime, info, hostname, cards, known)
    else rs == []
  }

  lemma PingReply()
    ensures ReplyTo("ping") == REPLY_OK && !Last("ping")
  {
    assert "ping" == KNOWN[5];
  }

  lemma PingBelongs(uptime: string, info: seq<string>, hostname: string, cards: int, known: int, found: bool)
    requires IsGuestInfo(info, hostname, cards, known)
    ensures BelongTo(Fitting(UptimeMessage(uptime)) + info, "ping", hostname, cards, known, found)
  {
    hide IsGuestInfo, UptimeMessage, Fitting, StateMessage;
    assert IsPingInfo(Fitting(UptimeMessage(uptime)) + info, uptime, info, hostname, cards, known);
  }

  lemma ResumeBelongs(info: seq<string>, hostname: string, cards: int, known: int, found: bool)
    requires IsGuestInfo(info, hostname, cards, known)
    ensures BelongTo(info + [StateMessage("OS_Resume")], "OS_Resume", hostname, cards, known, found)
  {
    hide IsGuestInfo, StateMessage;
    assert (info + [StateMessage("OS_Resume")])[..|info|] == info;
  }

  lemma StateBelongs(command: string, hostname: string, cards: int, known: int, found: bool)
    requires command in STATE_COMMANDS && command != "OS_Resume"
    ensures BelongTo([StateMessage(command)], command, hostname, cards, known, found)
  {
    hide StateMessage;
  }

  lemma GuestInfoIs(net: string, hostname: string, cards: int, known: int)
    requires |net| == CardsLength(cards) && NETWORK_KEY <= net
    ensures var rs := Fitting(NameMessage(hostname)) + [net] + if known == 0 then OS_NAMES else [];
            IsGuestInfo(rs, hostname, cards, known)
  {
  }

  predicate OpenSucceeded(f: Frame) {
    f.ecxHigh == 1 && f.edxLow == 0
  }

  /** The first of the reply flags. */
  predicate Success(f: Frame) {
    f.ecxHigh % 2 != 0
  }

  /** The second: there is something to receive. */
  predicate Offers(f: Frame) {
    f.ecxHigh / 2 % 2 != 0
  }

  /** More was said, and the TCLO channel not closed. */
  ghost predicate Extends(before: seq<Call>, after: seq<Call>)
    ensures Extends(before, after) ==> before <= after
  {
    before <= after && KeepsTclo(after, |before|, |after|)
  }

  lemma ExtendsOn(a: seq<Call>, b: seq<Call>, c: seq<Call>)
    requires Extends(a, b) && Extends(b, c)
    ensures Extends(a, c)
  {
  }

  /** What a backdoor call asks of the host. */
  datatype Ask = AskOpen(role: Role) | AskSetLength | AskSend | AskGetLength | AskGetData | AskGetEnd | AskClose

  type Host = (Ask, nat) -> Frame

  /** A successful open of the TCLO channel does not hand out the handle that means "closed". */
  ghost predicate Sensible(host: Host) {
    forall n: nat :: var f := host(AskOpen(TCLO), n);
      f.ecxHigh == 1 && f.edxLow == 0 ==> Opened(f) != NO_HANDLE
  }

  /** A host that grants everything it is asked. */
  ghost predicate Granting(host: Host) {
    && (forall role, n: nat :: host(AskOpen(role), n).ecxHigh == 1 && host(AskOpen(role), n).edxLow == 0)
    && (forall n: nat :: host(AskSetLength, n).ecxHigh % 2 == 1 && host(AskSend, n).ebx == 0x1_0000)
    && (forall n: nat :: host(AskGetLength, n).ecxHigh % 2 == 1)
    && (forall n: nat :: host(AskGetData, n).ebx == 0x1_0000 && host(AskGetEnd, n).ecxHigh != 0)
  }

  /** The state reports, one by one, and an example of each of the other messages. */
  lemma MessagesAre()
    ensures StateMessage("OS_Halt") == "tools.os.statechange.status 1 1"
    ensures StateMessage("OS_Reboot") == "tools.os.statechange.status 1 2"
    ensures StateMessage("OS_PowerOn") == "tools.os.statechange.status 1 3"
    ensures StateMessage("OS_Resume") == "tools.os.statechange.status 1 4"
    ensures StateMessage("OS_Suspend") == "tools.os.statechange.status 1 5"
    ensures AddressMessage("10.0.0.1") == "info-set guestinfo.ip 10.0.0.1"
    ensures NameMessage("vm") == "SetGuestInfo  1 vm" && UptimeMessage("12") == "SetGuestInfo  7 1200"
  {
  }

  class Tools {
    var channel: uint16
    var cookie1: uint32
    var cookie2: uint32
    var rpcError: int
    var tcloPing: int
    var setGuestOs: int
    var fdelay: int
    const buf: array<char>
    const numberOfCards: int
    const hostname: string
    const host: Host                    // the answer to each backdoor call, by its number
    const bytes: (nat, nat) -> char     // the data that comes with it
    const address: nat -> Option<string> // what the guest finds out about itself after that many calls
    const uptime: nat -> string
    var calls: nat
    ghost var trace: seq<Call>

    constructor (cards: int, hostname: string, host: Host, bytes: (nat, nat) -> char, address: nat -> Option<string>,
                 uptime: nat -> string)
      requires Sensible(host)
      ensures Valid() && AtLoopHead() && fresh(buf) && trace == [] && calls == 0
      ensures this.numberOfCards == cards && this.hostname == hostname && this.host == host && this.bytes == bytes
      ensures this.address == address && this.uptime == uptime
    {
      this.host, this.bytes, this.address, this.uptime := host, bytes, address, uptime;
      calls := 0;
      channel, cookie1, cookie2 := 0, 0, 0;
      rpcError, tcloPing, setGuestOs, fdelay := 0, 0, 0, 0;
      buf := new char[BUFLEN](_ => '\0');
      numberOfCards := cards;
      this.hostname := hostname;
      trace := [];
    }

    function H(): (h: Handle)
      reads this
    {
      Handle(channel, cookie1, cookie2)
    }

    /** The fields agree with the conversation so far, which follows the protocol. */
    ghost predicate Agrees()
      reads this
    {
      && buf.Length == BUFLEN && Sensible(host)
      && 0 <= fdelay <= LOOP_WAIT_MS && fdelay % 5 == 0
      && (rpcError == 0 || rpcError == 1) && (tcloPing == 0 || tcloPing == 1)
      && Follows(trace)
      && var t := After(trace);
      && t.h == H()
      && (t.tclo == Closed <==> H() == NO_HANDLE)
      && (t.tclo == Closed ==> tcloPing == 0)
    }

    /** Moreover the error flag is up exactly while a fault is on record. */
    ghost predicate Valid()
      reads this
    {
      Agrees() && (rpcError == 1 <==> After(trace).fault)
    }

    /** Between two rounds no error is pending and no RPCI channel is open. */
    ghost predicate AtLoopHead()
      reads this
    {
      && rpcError == 0
      && var t := After(trace);
      && t.rpci == None
      && (t.tclo == Closed || (t.tclo == Ready && tcloPing == 0) || (t.tclo == Idle && tcloPing == 1))
    }

    ghost method Record(c: Call)
      modifies this`trace
      ensures trace == old(trace) + [c] && After(trace) == Next(old(After(trace)), c)
      ensures Requests(trace) == Requests(old(trace)) + if c.Open? && c.role == RPCI then [c.about] else []
    {
      AfterSnoc(trace, c);
      RequestsSnoc(trace, c);
      trace := trace + [c];
    }

    // ------------------------------------------------------ backdoor calls

    /** The host grants everything, and every message of the guest fits. */
    ghost predicate Welcome() {
      && Granting(host) && |NameMessage(hostname)| < BUFLEN
      && (forall n: nat :: |UptimeMessage(uptime(n))| < BUFLEN)
      && (forall n: nat :: address(n).Some? ==> |AddressMessage(address(n).value)| < BUFLEN)
    }

    lemma Fits(n: nat)
      requires Welcome()
      ensures |NameMessage(hostname)| < BUFLEN && |UptimeMessage(uptime(n))| < BUFLEN
      ensures address(n).Some? ==> |AddressMessage(address(n).value)| < BUFLEN
    {
    }

    method VmCmd(ask: Ask) returns (f: Frame)
      modifies this`calls
      ensures f == host(ask, old(calls)) && calls == old(calls) + 1
    {
      f := host(ask, calls);
      calls := calls + 1;
    }

    method RpcOpen(role: Role, ghost about: string) returns (ok: bool, h: Handle)
      requires Sensible(host)
      modifies this`calls, this`trace
      ensures var f := host(AskOpen(role), old(calls));
              ok == (f.ecxHigh == 1 && f.edxLow == 0) && h == Handle(f.edxHigh, f.esi, f.edi)
      ensures role == TCLO && ok ==> h != NO_HANDLE
      ensures trace == old(trace) + [Open(role, h, ok, about)]
      ensures After(trace) == Next(old(After(trace)), Open(role, h, ok, about))
      ensures Requests(trace) == Requests(old(trace)) + if role == RPCI then [about] else []
      ensures Welcome() ==> ok
    {
      hide After, Requests;
      var f := VmCmd(AskOpen(role));
      ok, h := OpenSucceeded(f), Opened(f);
      Record(Open(role, h, ok, about));
    }

    method RpcSend(role: Role, h: Handle, payload: string) returns (ok: bool)
      modifies this`calls, this`trace
      ensures ok <==>
                && host(AskSetLength, old(calls)).ecxHigh % 2 == 1
                && (payload != "" ==> host(AskSend, old(calls) + 1).ebx == 0x1_0000)
      ensures trace == old(trace) + [Send(role, h, payload, ok)]
      ensures After(trace) == Next(old(After(trace)), Send(role, h, payload, ok))
      ensures Requests(trace) == Requests(old(trace))
      ensures Welcome() ==> ok
    {
      hide After, Requests;
      var f := VmCmd(AskSetLength);
      ok := Success(f);
      if ok && |payload| != 0 {
        f := VmCmd(AskSend);
        ok := f.ebx == ENH_DATA;
      }
      Record(Send(role, h, payload, ok));
    }

    method RpcGetLength(role: Role, h: Handle) returns (ok: bool, length: uint32)
      modifies this`calls, this`trace
      ensures var f := host(AskGetLength, old(calls));
              && ok == (f.ecxHigh % 2 == 1)
              && length == if ok && f.ecxHigh / 2 % 2 == 1 then f.ebx else 0
      ensures trace == old(trace) + [Poll(role, h, length, ok)]
      ensures After(trace) == Next(old(After(trace)), Poll(role, h, length, ok))
      ensures Requests(trace) == Requests(old(trace))
      ensures Welcome() ==> ok
    {
      hide After, Requests;
      var f := VmCmd(AskGetLength);
      ok := Success(f);
      length := if !ok || !Offers(f) then 0 else f.ebx;
      Record(Poll(role, h, length, ok));
    }

    /** The host puts `length` bytes into the buffer, and a NUL goes behind them. */
    method RpcGetData(role: Role, h: Handle, length: nat) returns (ok: bool)
      requires length < buf.Length
      modifies this`calls, this`trace, buf
      ensures forall i :: 0 <= i < length ==> buf[i] == bytes(old(calls), i)
      ensures buf[length] == '\0'
      ensures ok <==> host(AskGetData, old(calls)).ebx == 0x1_0000 && host(AskGetEnd, old(calls) + 1).ecxHigh != 0
      ensures trace == old(trace) + [Fetch(role, h, length, ok, buf[..length])]
      ensures After(trace) == Next(old(After(trace)), Fetch(role, h, length, ok, buf[..length]))
      ensures Requests(trace) == Requests(old(trace))
      ensures Welcome() ==> ok
    {
      hide After, Requests;
      forall i | 0 <= i < length {
        buf[i] := bytes(calls, i);
      }
      var f := VmCmd(AskGetData);
      buf[length] := '\0';
      ok := f.ebx == ENH_DATA;
      if ok {
        f := VmCmd(AskGetEnd);
        ok := f.ecxHigh != 0;
      }
      Record(Fetch(role, h, length, ok, buf[..length]));
    }

    method RpcClose(role: Role, h: Handle)
      modifies this`calls, this`trace
      ensures trace == old(trace) + [Close(role, h)] && After(trace) == Next(old(After(trace)), Close(role, h))
      ensures Requests(trace) == Requests(old(trace))
    {
      hide After, Requests;
      var _ := VmCmd(AskClose);
      Record(Close(role, h));
    }

    /** The long-lived channel is forgotten with the call, whatever the host answers. */
    method CloseTclo()
      modifies this`calls, this`trace, this`channel, this`cookie1, this`cookie2, this`tcloPing
      ensures H() == NO_HANDLE && tcloPing == 0
      ensures trace == old(trace) + [Close(TCLO, old(H()))] && Requests(trace) == Requests(old(trace))
      ensures After(trace) == Next(old(After(trace)), Close(TCLO, old(H())))
    {
      RpcClose(TCLO, H());
      channel, cookie1, cookie2 := 0, 0, 0;
      tcloPing := 0;
    }

    // ------------------------------------------------------- RPCI requests

    /** A command has been received and its reply is owed. */
    ghost predicate Talking(command: string)
      reads this
    {
      Agrees() && After(trace).tclo == Owing(command) && After(trace).rpci == None
    }

    ghost predicate Answering(command: string)
      reads this
    {
      Talking(command) && Valid()
    }

    /** Nothing is owed; the channel goes on, or is broken and an error is pending. */
    ghost predicate Answered()
      reads this
    {
      Valid() && After(trace).tclo == Settled(After(trace).fault) && After(trace).rpci == None
    }

    /**
     One request on a channel of its own, which is closed again whatever happens.
     It fails if any part of it fails, and leaves the long-lived channel alone.
     */
    method SendRpciBuf(length: nat, ghost command: string) returns (ok: bool)
      requires Talking(command) && length <= buf.Length
      modifies this`calls, this`trace, buf
      ensures Talking(command) && Extends(old(trace), trace)
      ensures Requests(trace) == Requests(old(trace)) + [old(buf[..length])]
      ensures After(trace).fault <==> old(After(trace).fault) || (!ok && !(NETWORK_KEY <= old(buf[..length])))
      ensures |old(trace)| < |trace| && trace[|old(trace)|].Open?
      ensures trace[|old(trace)|].ok ==> |old(trace)| + 2 < |trace| && trace[|old(trace)| + 1].Send?
      ensures ok ==> trace[|old(trace)|].ok && trace[|old(trace)| + 1].ok
      ensures Welcome() ==> ok
    {
      hide Welcome, After, Requests;
      var h;
      ok, h := RpcOpen(RPCI, buf[..length]);
      if !ok {
        return;
      }
      ok := Exchange(h, length, command);
      RpcClose(RPCI, h);
    }

    /** Sends the request and fetches the response, if there is one. */
    method Exchange(h: Handle, length: nat, ghost command: string) returns (ok: bool)
      requires Agrees() && After(trace).tclo == Owing(command) && After(trace).rpci == Some(h)
      requires length <= buf.Length && After(trace).about == buf[..length] && After(trace).errand == ToSend
      modifies this`calls, this`trace, buf
      ensures Agrees() && After(trace).tclo == Owing(command) && After(trace).rpci == Some(h)
      ensures After(trace).errand == Over
      ensures Extends(old(trace), trace) && Requests(trace) == Requests(old(trace))
      ensures After(trace).fault <==> old(After(trace).fault) || (!ok && !(NETWORK_KEY <= old(buf[..length])))
      ensures |old(trace)| < |trace| && trace[|old(trace)|].Send? && (ok ==> trace[|old(trace)|].ok)
      ensures Welcome() ==> ok
    {
      hide Welcome, After, Requests;
      ok := RpcSend(RPCI, h, buf[..length]);
      if ok {
        ghost var said := trace;
        ok := Respond(h, command);
        ExtendsOn(old(trace), said, trace);
      }
    }

    /** Polls for the response, and fetches it if there is one. */
    method Respond(h: Handle, ghost command: string) returns (ok: bool)
      requires Agrees() && After(trace).tclo == Owing(command) && After(trace).rpci == Some(h)
      requires After(trace).errand == ToPoll
      modifies this`calls, this`trace, buf
      ensures Agrees() && After(trace).tclo == Owing(command) && After(trace).rpci == Some(h)
      ensures After(trace).errand == Over
      ensures Extends(old(trace), trace) && Requests(trace) == Requests(old(trace))
      ensures After(trace).fault <==> old(After(trace).fault) || (!ok && !(NETWORK_KEY <= old(After(trace).about)))
      ensures Welcome() ==> ok
    {
      hide Welcome, After, Requests;
      var rlen;
      ok, rlen := RpcGetLength(RPCI, h);
      if ok && rlen > 0 {
        if rlen >= BUFLEN {
          rlen := BUFLEN - 1;
        }
        ok := RpcGetData(RPCI, h, rlen);
      }
    }

    /** `vsnprintf` into the buffer, cut off at its end; a request that does not fit is not sent. */
    method SendRpci(message: string, ghost command: string) returns (ok: bool)
      requires Talking(command)
      modifies this`calls, this`trace, buf
      ensures Talking(command) && Extends(old(trace), trace)
      ensures Requests(trace) == Requests(old(trace)) + Fitting(message)
      ensures After(trace).fault <==>
                old(After(trace).fault) || (!ok && (NETWORK_KEY <= message ==> |message| >= BUFLEN))
      ensures |message| >= BUFLEN ==> !ok && buf[..BUFLEN - 1] == message[..BUFLEN - 1] && buf[BUFLEN - 1] == '\0'
      ensures Welcome() && |message| < BUFLEN ==> ok
    {
      hide Welcome, After, Requests;
      var n := if |message| < BUFLEN then |message| else BUFLEN - 1;
      forall i | 0 <= i < n {
        buf[i] := message[i];
      }
      buf[n] := '\0';
      if |message| >= BUFLEN {
        Record(Refused(message));
        return false;
      }
      assert buf[..n] == message;
      ok := SendRpciBuf(|message|, command);
    }

    method Request(message: string, ghost command: string)
      requires Answering(command) && !(NETWORK_KEY <= message)
      modifies this`calls, this`trace, this`rpcError, buf
      ensures Answering(command) && Extends(old(trace), trace)
      ensures Requests(trace) == Requests(old(trace)) + Fitting(message)
      ensures Welcome() && |message| < BUFLEN ==> rpcError == old(rpcError)
    {
      hide Welcome, After, Requests, Extends;
      var ok := SendRpci(message, command);
      if !ok {
        rpcError := 1;
      }
    }

    /** The reply on the TCLO channel, the last thing said about a command. */
    method Reply(reply: string, ghost command: string) returns (ok: bool)
      requires Answering(command) && reply == ReplyTo(command)
      modifies this`calls, this`trace
      ensures Agrees() && trace == old(trace) + [Send(TCLO, H(), reply, ok)] && Extends(old(trace), trace)
      ensures Requests(trace) == Requests(old(trace))
      ensures After(trace).fault <==> rpcError == 1 || (!ok && !Last(command))
      ensures After(trace).tclo == Settled(After(trace).fault) && After(trace).rpci == None
      ensures Welcome() ==> ok
    {
      hide Welcome, After, Requests;
      ok := RpcSend(TCLO, H(), reply);
    }

    method ReplyOrFail(reply: string, ghost command: string)
      requires Answering(command) && reply == ReplyTo(command) && !Last(command)
      modifies this`calls, this`trace, this`rpcError
      ensures Answered() && Extends(old(trace), trace) && Requests(trace) == Requests(old(trace))
      ensures |trace| == |old(trace)| + 1 && trace[|old(trace)|].Send?
      ensures rpcError == if trace[|old(trace)|].ok then old(rpcError) else 1
      ensures Welcome() ==> rpcError == old(rpcError)
    {
      hide Welcome, After, Requests;
      var ok := Reply(reply, command);
      if !ok {
        rpcError := 1;
      }
    }

    // ------------------------------------------------------------- handlers

    /**
     Dispatch of a received command. Every handler makes the requests that belong
     to the command and answers it or, for one of them, may keep silent. The error
     flag is raised exactly if a call failed for which the channel has to go.
     */
    method Process(command: string)
      requires Answering(command) && rpcError == 0
      modifies this`calls, this`trace, this`rpcError, this`setGuestOs, this`fdelay, buf
      ensures Answered() && Extends(old(trace), trace) && H() == old(H())
      ensures rpcError == 1 <==> FaultIn(trace, |old(trace)|, |trace|)
      ensures fdelay == if command == "OS_PowerOn" then LOOP_WAIT_MS else old(fdelay)
      ensures exists rs ::
                && Requests(trace) == Requests(old(trace)) + rs
                && BelongTo(rs, command, hostname, numberOfCards, old(setGuestOs), Found(old(trace), trace))
      ensures Welcome() ==> rpcError == old(rpcError)
    {
      hide Welcome, After, Requests;
      ghost var rs := [];
      if command == "Capabilities_Register" {
        CapReg(command);
        rs := CAPABILITIES;
      } else if command in STATE_COMMANDS {
        rs := OsCommand(command);
      } else if command == BROADCAST_IP {
        rs := BroadcastIp(command);
      } else if command == "ping" {
        rs := Ping(command);
      } else if command == "reset" {
        Reset(command);
      } else {
        ReplyOrFail(REPLY_ERROR, command);
      }
      assert Requests(trace) == Requests(old(trace)) + rs;
      assert BelongTo(rs, command, hostname, numberOfCards, old(setGuestOs), Found(old(trace), trace));
      FlagMeansFault(old(trace), trace);
    }

    /** The five handlers that confirm a change of the machine's state; halt and reboot do not look at the result. */
    method OsCommand(command: string) returns (ghost rs: seq<string>)
      requires Answering(command) && command in STATE_COMMANDS
      modifies this`calls, this`trace, this`rpcError, this`setGuestOs, this`fdelay, buf
      ensures Answered() && Extends(old(trace), trace)
      ensures fdelay == if command == "OS_PowerOn" then LOOP_WAIT_MS else old(fdelay)
      ensures Requests(trace) == Requests(old(trace)) + rs
      ensures BelongTo(rs, command, hostname, numberOfCards, old(setGuestOs), Found(old(trace), trace))
      ensures Welcome() ==> rpcError == old(rpcError)
    {
      hide *;
      rs := [];
      if command == "OS_Resume" {
        ghost var info := UpdateGuestInfo(command);
        ghost var said := trace;
        Confirm(command);
        rs := info + [StateMessage(command)];
        ExtendsOn(old(trace), said, trace);
        ResumeBelongs(info, hostname, numberOfCards, old(setGuestOs), Found(old(trace), trace));
      } else {
        Confirm(command);
        rs := [StateMessage(command)];
        StateBelongs(command, hostname, numberOfCards, old(setGuestOs), Found(old(trace), trace));
      }
    }

    /** Reports the state code and answers. */
    method Confirm(command: string)
      requires Answering(command) && command in STATE_COMMANDS
      modifies this`calls, this`trace, this`rpcError, this`fdelay, buf
      ensures Answered() && Extends(old(trace), trace)
      ensures fdelay == if command == "OS_PowerOn" then LOOP_WAIT_MS else old(fdelay)
      ensures Requests(trace) == Requests(old(trace)) + [StateMessage(command)]
      ensures Welcome() ==> rpcError == old(rpcError)
    {
      hide Welcome, After, Next, Requests;
      NotCards(command, "");
      Request(StateMessage(command), command);
      if command == "OS_PowerOn" {
        fdelay := LOOP_WAIT_MS;
      }
      if command == "OS_Halt" || command == "OS_Reboot" {
        var _ := Reply(REPLY_OK, command);
      } else {
        ReplyOrFail(REPLY_OK, command);
      }
    }

    method CapReg(command: string)
      requires Answering(command) && command == "Capabilities_Register"
      modifies this`calls, this`trace, this`rpcError, buf
      ensures Answered() && Extends(old(trace), trace) && Requests(trace) == Requests(old(trace)) + CAPABILITIES
      ensures Welcome() ==> rpcError == old(rpcError)
    {
      hide Welcome, After, Next, Requests;
      NotCards(command, "");
      Request("vmx.capability.unified_loop toolbox", command);
      Request("tools.capability.statechange ", command);
      Request("tools.set.version 2147483647", command);
      ReplyOrFail(REPLY_OK, command);
    }

    /** With no error pending, which is how every round starts, the channel is kept and the reset reply sent. */
    method Reset(ghost command: string)
      requires Answering(command) && command == "reset" && rpcError == 0
      modifies this`calls, this`trace, this`rpcError
      ensures Answered() && Extends(old(trace), trace) && Requests(trace) == Requests(old(trace))
      ensures Welcome() ==> rpcError == old(rpcError)
    {
      hide Welcome, After, Next, Requests;
      if rpcError != 0 {
        // the branch that closes the channel is never taken
        assert false;
      }
      ReplyOrFail(RESET_REPLY, command);
    }

    method BroadcastIp(ghost command: string) returns (ghost rs: seq<string>)
      requires Answering(command) && command == BROADCAST_IP
      modifies this`calls, this`trace, this`rpcError, buf
      ensures Answered() && Extends(old(trace), trace) && |old(trace)| < |trace| && trace[|old(trace)|].Lookup?
      ensures !trace[|old(trace)|].ok ==> |trace| == |old(trace)| + 1
      ensures Requests(trace) == Requests(old(trace)) + rs
      ensures BelongTo(rs, command, hostname, numberOfCards, setGuestOs, Found(old(trace), trace))
      ensures Welcome() ==> rpcError == old(rpcError)
      ensures trace[|old(trace)|].ok == address(old(calls)).Some?
      ensures rs == if address(old(calls)).None? then [] else Fitting(AddressMessage(address(old(calls)).value))
    {
      hide Welcome, After, Requests;
      rs := [];
      if Welcome() {
        Fits(calls);
      }
      var found := address(calls);
      Record(Lookup(found.Some?));
      if found.Some? {
        SendAddress(found.value, command);
        rs := Fitting(AddressMessage(found.value));
      }
    }

    method SendAddress(ip: string, ghost command: string)
      requires Answering(command) && command == BROADCAST_IP
      modifies this`calls, this`trace, this`rpcError, buf
      ensures Answered() && Extends(old(trace), trace)
      ensures Requests(trace) == Requests(old(trace)) + Fitting(AddressMessage(ip))
      ensures Welcome() && |AddressMessage(ip)| < BUFLEN ==> rpcError == old(rpcError)
    {
      hide Welcome, After, Next, Requests, Extends;
      NotCards(command, ip);
      Request(AddressMessage(ip), command);
      ghost var said := trace;
      ReplyOrFail(REPLY_OK, command);
      ExtendsOn(old(trace), said, trace);
    }

    method Ping(ghost command: string) returns (ghost rs: seq<string>)
      requires Answering(command) && command == "ping"
      modifies this`calls, this`trace, this`rpcError, this`setGuestOs, buf
      ensures Answered() && Extends(old(trace), trace)
      ensures Requests(trace) == Requests(old(trace)) + rs
      ensures BelongTo(rs, command, hostname, numberOfCards, old(setGuestOs), Found(old(trace), trace))
      ensures Welcome() ==> rpcError == old(rpcError)
      ensures Fitting(UptimeMessage(uptime(old(calls)))) <= rs
    {
      hide *;
      PingReply();
      var up := uptime(calls);
      if Welcome() {
        Fits(calls);
      }
      NotCards(command, up);
      Request(UptimeMessage(up), command);
      ghost var said := trace;
      ghost var info := UpdateGuestInfo(command);
      ExtendsOn(old(trace), said, trace);
      said := trace;
      ReplyOrFail(REPLY_OK, command);
      ExtendsOn(old(trace), said, trace);
      rs := Fitting(UptimeMessage(up)) + info;
      PingBelongs(up, info, hostname, numberOfCards, old(setGuestOs), Found(old(trace), trace));
    }

    /** The template for that many cards goes into the buffer, with addresses filled in behind its head. */
    method CopyCards() returns (length: nat)
      requires buf.Length == BUFLEN
      modifies buf
      ensures length == CardsLength(numberOfCards) && NETWORK_KEY <= buf[..length]
    {
      length := CardsLength(numberOfCards);
      var i := 0;
      while i < length
        invariant 0 <= i <= length
        invariant forall k :: 0 <= k < i && k < |NETWORK_KEY| ==> buf[k] == NETWORK_KEY[k]
        modifies buf
      {
        if i < |NETWORK_KEY| {
          buf[i] := NETWORK_KEY[i];
        } else {
          buf[i] := *;
        }
        i := i + 1;
      }
    }

    method UpdateGuestInfo(ghost command: string) returns (ghost rs: seq<string>)
      requires Answering(command)
      modifies this`calls, this`trace, this`rpcError, this`setGuestOs, buf
      ensures Answering(command) && Extends(old(trace), trace) && setGuestOs != 0
      ensures Requests(trace) == Requests(old(trace)) + rs && IsGuestInfo(rs, hostname, numberOfCards, old(setGuestOs))
      ensures Welcome() ==> rpcError == old(rpcError)
    {
      hide *;
      if Welcome() {
        Fits(calls);
      }
      NotCards(command, hostname);
      Request(NameMessage(hostname), command);
      ghost var said := trace;
      ghost var net := ReportCards(command);
      ExtendsOn(old(trace), said, trace);
      rs := Fitting(NameMessage(hostname)) + [net] + if setGuestOs == 0 then OS_NAMES else [];
      GuestInfoIs(net, hostname, numberOfCards, setGuestOs);
      if setGuestOs == 0 {
        said := trace;
        ReportNames(command);
        ExtendsOn(old(trace), said, trace);
      }
    }

    /** A failure of this message is not looked at. */
    method ReportCards(ghost command: string) returns (ghost net: string)
      requires Answering(command)
      modifies this`calls, this`trace, buf
      ensures Answering(command) && Extends(old(trace), trace) && Requests(trace) == Requests(old(trace)) + [net]
      ensures |net| == CardsLength(numberOfCards) && NETWORK_KEY <= net
    {
      hide Welcome, After, Next, Requests, Extends;
      var length := CopyCards();
      net := buf[..length];
      var _ := SendRpciBuf(length, command);
    }

    method ReportNames(ghost command: string)
      requires Answering(command)
      modifies this`calls, this`trace, this`rpcError, this`setGuestOs, buf
      ensures Answering(command) && Extends(old(trace), trace) && Requests(trace) == Requests(old(trace)) + OS_NAMES
      ensures setGuestOs == 1
      ensures Welcome() ==> rpcError == old(rpcError)
    {
      hide Welcome, After, Next, Requests;
      NotCards(command, "");
      Request("SetGuestInfo  5 vorteil.io 1.0 amd64_x86", command);
      Request("SetGuestInfo  6 other-64", command);
      setGuestOs := 1;
    }

    // ------------------------------------------------------------- the loop

    /** Opens the TCLO channel if there is none, and introduces the guest on it. */
    method EnsureOpen() returns (ok: bool)
      requires Valid() && AtLoopHead()
      modifies this`calls, this`trace, this`rpcError, this`fdelay, this`channel, this`cookie1, this`cookie2
      ensures Valid() && After(trace).rpci == None && Extends(old(trace), trace)
      ensures ok ==> AtLoopHead() && H() != NO_HANDLE
      ensures !ok ==> if rpcError == 1 then After(trace).tclo == Broken else AtLoopHead() && H() == NO_HANDLE
      ensures old(H()) == NO_HANDLE ==> Opening(old(trace), trace)
      ensures fdelay == if old(H()) != NO_HANDLE then old(fdelay) else if H() == NO_HANDLE then 15 else 0
      ensures old(H()) != NO_HANDLE ==> ok && trace == old(trace)
      ensures NoneReceived(old(trace), trace)
      ensures Welcome() ==> ok
      ensures |old(trace)| < |trace| ==> (H() == NO_HANDLE <==> !trace[|old(trace)|].ok)
    {
      hide Welcome, After, Requests;
      ok := true;
      if channel == 0 && cookie1 == 0 && cookie2 == 0 {
        fdelay := 0;
        var h;
        ok, h := RpcOpen(TCLO, "");
        if !ok {
          fdelay := 15;
          return;
        }
        channel, cookie1, cookie2 := h.channel, h.cookie1, h.cookie2;
        ok := RpcSend(TCLO, H(), RESET_REPLY);
        rpcError := if ok then 0 else 1;
      }
    }

    /** A channel on which the last poll found nothing is kept alive by an empty send. */
    method SendPing() returns (ok: bool)
      requires Valid() && AtLoopHead() && H() != NO_HANDLE
      modifies this`calls, this`trace, this`rpcError
      ensures Valid() && After(trace).rpci == None && Extends(old(trace), trace)
      ensures ok ==> After(trace).tclo == Ready && rpcError == 0
      ensures !ok ==> After(trace).tclo == Broken && rpcError == 1 && |old(trace)| < |trace|
      ensures NoneReceived(old(trace), trace)
      ensures Welcome() ==> ok
    {
      hide Welcome, After, Requests;
      ok := true;
      if tcloPing != 0 {
        ok := RpcSend(TCLO, H(), "");
        if !ok {
          rpcError := 1;
        }
      }
    }

    /** Polls for a command and fetches it into the buffer, with room for the terminating NUL. */
    method Receive() returns (got: bool)
      requires Valid() && After(trace).tclo == Ready && After(trace).rpci == None && rpcError == 0
      modifies this`calls, this`trace, this`rpcError, this`tcloPing, buf
      ensures Valid() && After(trace).rpci == None && Extends(old(trace), trace)
      ensures |old(trace)| < |trace| && TcloPoll(trace[|old(trace)|]) && NoneReceived(old(trace), trace)
      ensures got ==> After(trace).tclo == Fetched && rpcError == 0 && tcloPing == 0
      ensures !got ==> if rpcError == 1 then After(trace).tclo == Broken else AtLoopHead()
      ensures Welcome() ==> rpcError == 0
      ensures got ==> CString(buf[..]) == CString(After(trace).heard)
    {
      hide Welcome, After, Requests, CString;
      got := false;
      forall i | 0 <= i < buf.Length {
        buf[i] := '\0';
      }
      var ok, rlen := RpcGetLength(TCLO, H());
      if !ok {
        rpcError := 1;
        return;
      }
      if rlen == 0 {
        tcloPing := 1;
        return;
      }
      ghost var said := trace;
      got := FetchCommand(if rlen >= BUFLEN then BUFLEN - 1 else rlen);
      ExtendsOn(old(trace), said, trace);
      NoneOn(old(trace), said, trace);
      if got {
        tcloPing := 0;
      }
    }

    /** The command that was offered. */
    method FetchCommand(length: nat) returns (ok: bool)
      requires Valid() && After(trace).rpci == None && rpcError == 0
      requires After(trace).tclo.Offered? && length == Cut(After(trace).tclo.length)
      modifies this`calls, this`trace, this`rpcError, buf
      ensures Valid() && After(trace).rpci == None && Extends(old(trace), trace) && NoneReceived(old(trace), trace)
      ensures ok ==> After(trace).tclo == Fetched && rpcError == 0
      ensures ok ==> CString(buf[..]) == CString(After(trace).heard)
      ensures !ok ==> After(trace).tclo == Broken && rpcError == 1
      ensures Welcome() ==> ok
    {
      hide Welcome, After, Requests, CString;
      ok := RpcGetData(TCLO, H(), length);
      rpcError := if ok then 0 else 1;
      SameCString(buf[..], length);
      assert buf[..length] == buf[..][..length];
    }

    /** The buffer holds a command, up to its first NUL. */
    method Dispatch()
      requires Valid() && After(trace).tclo == Fetched && After(trace).rpci == None && rpcError == 0
      requires CString(buf[..]) == CString(After(trace).heard)
      modifies this`calls, this`trace, this`rpcError, this`setGuestOs, this`fdelay, buf
      ensures Answered() && Extends(old(trace), trace) && H() == old(H())
      ensures Served(old(trace), trace, hostname, numberOfCards, old(setGuestOs))
      ensures Welcome() ==> rpcError == old(rpcError)
      ensures fdelay == if Heard(old(trace), trace, "OS_PowerOn") then LOOP_WAIT_MS else old(fdelay)
    {
      hide Welcome, After, Requests, FaultIn, BelongTo, CString;
      var command := CString(buf[..]);
      Record(Command(command));
      hide Next;
      ghost var asked := trace;
      Process(command);
      ghost var rs :| Requests(trace) == Requests(asked) + rs
                      && BelongTo(rs, command, hostname, numberOfCards, old(setGuestOs), Found(asked, trace));
      HeardHere(old(trace), trace, command, "OS_PowerOn");
      ServedHere(old(trace), trace, command, rs, hostname, numberOfCards, old(setGuestOs));
    }

    /** A poll, and the answer to the command it brings. */
    method Answer()
      requires Valid() && After(trace).tclo == Ready && After(trace).rpci == None && rpcError == 0
      modifies this`calls, this`trace, this`rpcError, this`tcloPing, this`setGuestOs, this`fdelay, buf
      ensures Valid() && After(trace).rpci == None && Extends(old(trace), trace) && H() == old(H())
      ensures rpcError == 0 ==> AtLoopHead()
      ensures rpcError == 1 ==> After(trace).tclo == Broken
      ensures |old(trace)| < |trace| && TcloPoll(trace[|old(trace)|])
      ensures Served(old(trace), trace, hostname, numberOfCards, old(setGuestOs))
      ensures Welcome() ==> rpcError == 0
      ensures fdelay == if Heard(old(trace), trace, "OS_PowerOn") then LOOP_WAIT_MS else old(fdelay)
    {
      hide Welcome, After, Requests, Extends, FaultIn, BelongTo, NoneReceived, Served;
      var got := Receive();
      ServedNothing(old(trace), trace, hostname, numberOfCards, setGuestOs);
      HeardNothing(old(trace), trace, "OS_PowerOn");
      if got {
        ghost var said := trace;
        Dispatch();
        ExtendsOn(old(trace), said, trace);
        ServedOn(old(trace), said, trace, hostname, numberOfCards, old(setGuestOs));
        HeardOn(old(trace), said, trace, "OS_PowerOn");
      }
    }

    /** A round up to the error check. */
    method Converse()
      requires Valid() && AtLoopHead()
      modifies this`calls, this`trace, this`rpcError, this`tcloPing, this`setGuestOs, this`fdelay
      modifies this`channel, this`cookie1, this`cookie2, buf
      ensures Valid() && After(trace).rpci == None && Extends(old(trace), trace)
      ensures rpcError == 0 ==> AtLoopHead()
      ensures rpcError == 1 ==> After(trace).tclo == Broken
      ensures old(H()) == NO_HANDLE ==> Opening(old(trace), trace)
      ensures rpcError == 0 && H() != NO_HANDLE ==> Polled(old(trace), trace)
      ensures |old(trace)| < |trace|
      ensures Served(old(trace), trace, hostname, numberOfCards, old(setGuestOs))
      ensures Welcome() ==> rpcError == 0 && H() != NO_HANDLE
      ensures fdelay == if Heard(old(trace), trace, "OS_PowerOn") then LOOP_WAIT_MS
                        else if old(H()) != NO_HANDLE then old(fdelay) else if trace[|old(trace)|].ok then 0 else 15
    {
      hide Welcome, After, Requests, Next, NoneReceived, Served;
      var ok := EnsureOpen();
      if ok {
        ghost var said := trace;
        ok := SendPing();
        NoneOn(old(trace), said, trace);
      }
      ServedNothing(old(trace), trace, hostname, numberOfCards, setGuestOs);
      HeardNothing(old(trace), trace, "OS_PowerOn");
      if ok {
        ghost var said := trace;
        Answer();
        assert TcloPoll(trace[|said|]);
        HeardOn(old(trace), said, trace, "OS_PowerOn");
        ServedOn(old(trace), said, trace, hostname, numberOfCards, old(setGuestOs));
      }
    }

    /**
     One round of the endless loop, up to the sleep. Whatever the host does, the
     conversation goes on as the protocol demands. The channel is closed by the
     last call of the round exactly if a call failed for which it has to go; the
     next round finds no error pending, and opens a channel if there is none. A
     round that ends with an open channel has polled it. The requests made are the
     ones that belong to the command received, and none without one.
     */
    method Round() returns (delay: int, raised: bool)
      requires Valid() && AtLoopHead()
      modifies this, buf
      ensures Valid() && AtLoopHead() && old(trace) <= trace && |old(trace)| < |trace|
      ensures raised <==> FaultIn(trace, |old(trace)|, |trace|)
      ensures raised <==> TcloClose(trace[|trace| - 1])
      ensures KeepsTclo(trace, |old(trace)|, |trace| - 1)
      ensures raised ==> H() == NO_HANDLE
      ensures delay == if old(H()) == NO_HANDLE then 0 else old(fdelay)
      ensures 0 <= delay <= LOOP_WAIT_MS && delay % 5 == 0
      ensures old(H()) == NO_HANDLE ==> Opening(old(trace), trace)
      ensures H() != NO_HANDLE ==> Polled(old(trace), trace)
      ensures Served(old(trace), trace, hostname, numberOfCards, old(setGuestOs))
      ensures Welcome() ==> !raised && H() != NO_HANDLE && Polled(old(trace), trace)
      ensures fdelay == if Heard(old(trace), trace, "OS_PowerOn") then 5000
                        else if old(H()) == NO_HANDLE then if trace[|old(trace)|].ok then 0 else 15
                        else if old(fdelay) < 5000 then old(fdelay) + 5 else 5000
    {
      hide Welcome, After, Requests, Served;
      delay := fdelay;
      if fdelay < LOOP_WAIT_MS {
        fdelay := fdelay + 5;
      }
      if H() == NO_HANDLE {
        delay := 0;
      }
      Converse();
      raised := rpcError == 1;
      FlagMeansFault(old(trace), trace);
      if raised {
        ghost var said := trace;
        CloseTclo();
        rpcError := 0;
        ClosingIsNoFault(said, trace[|said|], |old(trace)|);
        ServedThenClosed(old(trace), said, trace[|said|], hostname, numberOfCards, old(setGuestOs));
        HeardThenClosed(old(trace), said, trace[|said|], "OS_PowerOn");
      }
    }

    /**
     Any number of rounds: the whole conversation, across all of them, is one the
     host can rely on. With a host that grants everything the channel is never closed.
     */
    method Loop(rounds: nat)
      requires Valid() && AtLoopHead()
      modifies this, buf
      ensures Valid() && AtLoopHead() && Disciplined(trace)
      ensures old(trace) <= trace && |old(trace)| + rounds <= |trace|
      ensures Welcome() ==> KeepsTclo(trace, |old(trace)|, |trace|) && (rounds > 0 ==> H() != NO_HANDLE)
    {
      hide Welcome, After, Requests, Next;
      for i := 0 to rounds
        invariant Welcome() ==> KeepsTclo(trace, |old(trace)|, |trace|) && (i > 0 ==> H() != NO_HANDLE)
        invariant Valid() && AtLoopHead() && old(trace) <= trace && |old(trace)| + i <= |trace|
      {
        var _, _ := Round();
      }
      FollowsIsDisciplined(trace);
    }
  }

  lemma SameCString(s: string, n: nat)
    requires n < |s| && s[n] == '\0'
    ensures CString(s) == CString(s[..n])
  {
    CStringIs(s, CString(s[..n]));
  }

  /** With no fault on record before and the channel kept, the record says whether there was one. */
  lemma FlagMeansFault(before: seq<Call>, after: seq<Call>)
    requires Follows(after) && Extends(before, after) && !After(before).fault
    ensures After(after).fault <==> FaultIn(after, |before|, |after|)
  {
    assert after[..|before|] == before && after[..|after|] == after;
    hide After, KeepsTclo;
    FaultOnRecord(after, |before|, |after|);
  }

  lemma ClosingIsNoFault(said: seq<Call>, c: Call, lo: nat)
    requires TcloClose(c) && lo <= |said|
    ensures FaultIn(said + [c], lo, |said| + 1) <==> FaultIn(said, lo, |said|)
  {
    var trace := said + [c];
    assert forall i: nat :: i <= |said| ==> trace[..i] == said[..i];
    hide After;
    FaultInMore(trace, lo, |trace|);
    assert forall i: nat :: i < |said| ==> (Faulty(trace, i) <==> Faulty(said, i));
  }

  /** No command was received, and no request made. */
  ghost predicate NoneReceived(before: seq<Call>, after: seq<Call>) {
    && before <= after && Requests(after) == Requests(before)
    && forall i :: |before| <= i < |after| ==> !after[i].Command?
  }

  /** The first command received is this one. */
  ghost predicate Heard(before: seq<Call>, after: seq<Call>, text: string) {
    exists i :: |before| <= i < |after| && after[i] == Command(text) && NoCommand(after, |before|, i)
  }

  ghost predicate NoCommand(trace: seq<Call>, lo: nat, hi: int) {
    forall i :: lo <= i < hi && i < |trace| ==> !trace[i].Command?
  }

  lemma HeardNothing(before: seq<Call>, after: seq<Call>, text: string)
    requires NoneReceived(before, after)
    ensures !Heard(before, after, text)
  {
  }

  lemma HeardHere(before: seq<Call>, after: seq<Call>, command: string, text: string)
    requires before + [Command(command)] <= after
    ensures Heard(before, after, text) <==> text == command
  {
    var n := |before|;
    assert after[n] == (before + [Command(command)])[n];
    assert NoCommand(after, n, n);
    assert forall i :: n < i ==> !NoCommand(after, n, i);
  }

  lemma HeardOn(a: seq<Call>, b: seq<Call>, c: seq<Call>, text: string)
    requires NoneReceived(a, b) && b <= c
    ensures Heard(a, c, text) <==> Heard(b, c, text)
  {
    hide Requests;
    assert forall i :: |a| <= i < |b| ==> c[i] == b[i];
    assert forall i: int :: |b| <= i ==> (NoCommand(c, |a|, i) <==> NoCommand(c, |b|, i));
  }

  lemma HeardThenClosed(a: seq<Call>, b: seq<Call>, c: Call, text: string)
    requires TcloClose(c) && a <= b
    ensures Heard(a, b + [c], text) <==> Heard(a, b, text)
  {
    assert forall i :: 0 <= i < |b| ==> (b + [c])[i] == b[i];
    assert forall i: int :: i <= |b| ==> (NoCommand(b + [c], |a|, i) <==> NoCommand(b, |a|, i));
  }

  /** Call `i` is the command, and `rs` are the requests that belong to it. */
  ghost predicate ServedAt(
    before: seq<Call>, after: seq<Call>, i: nat, rs: seq<string>, hostname: string, cards: int, known: int)
  {
    && before <= after && |before| <= i < |after| && after[i].Command? && NoneReceived(before, after[..i])
    && Requests(after) == Requests(before) + rs
    && BelongTo(rs, after[i].text, hostname, cards, known, Found(after[..i + 1], after))
  }

  /** No command and no request, or a command and exactly the requests that belong to it. */
  ghost predicate Served(before: seq<Call>, after: seq<Call>, hostname: string, cards: int, known: int) {
    NoneReceived(before, after) || exists i: nat, rs :: ServedAt(before, after, i, rs, hostname, cards, known)
  }

  lemma ServedNothing(before: seq<Call>, after: seq<Call>, hostname: string, cards: int, known: int)
    requires NoneReceived(before, after)
    ensures Served(before, after, hostname, cards, known)
  {
  }

  lemma ServedHere(
    before: seq<Call>, after: seq<Call>, command: string, rs: seq<string>, hostname: string, cards: int, known: int)
    requires before + [Command(command)] <= after && Requests(after) == Requests(before) + rs
    requires BelongTo(rs, command, hostname, cards, known, Found(before + [Command(command)], after))
    ensures Served(before, after, hostname, cards, known)
  {
    hide Requests, BelongTo;
    var n := |before|;
    assert after[..n] == before && after[n] == (before + [Command(command)])[n];
    assert after[..n + 1] == before + [Command(command)];
    assert ServedAt(before, after, n, rs, hostname, cards, known);
  }

  lemma NoneOn(a: seq<Call>, b: seq<Call>, c: seq<Call>)
    requires NoneReceived(a, b) && NoneReceived(b, c)
    ensures NoneReceived(a, c)
  {
    hide Requests;
  }

  lemma ServedOn(a: seq<Call>, b: seq<Call>, c: seq<Call>, hostname: string, cards: int, known: int)
    requires NoneReceived(a, b) && Served(b, c, hostname, cards, known)
    ensures Served(a, c, hostname, cards, known)
  {
    hide Requests, BelongTo, Found;
    if NoneReceived(b, c) {
      NoneOn(a, b, c);
    } else {
      var i: nat, rs :| ServedAt(b, c, i, rs, hostname, cards, known);
      NoneOn(a, b, c[..i]);
      assert ServedAt(a, c, i, rs, hostname, cards, known);
    }
  }

  lemma ServedThenClosed(a: seq<Call>, b: seq<Call>, c: Call, hostname: string, cards: int, known: int)
    requires Served(a, b, hostname, cards, known) && TcloClose(c)
    ensures Served(a, b + [c], hostname, cards, known)
  {
    RequestsSnoc(b, c);
    hide Requests, BelongTo;
    if !NoneReceived(a, b) {
      var i: nat, rs :| ServedAt(a, b, i, rs, hostname, cards, known);
      assert (b + [c])[..i] == b[..i] && (b + [c])[..i + 1] == b[..i + 1];
      assert ServedAt(a, b + [c], i, rs, hostname, cards, known);
    }
  }

  /** The TCLO channel was polled. */
  ghost predicate Polled(before: seq<Call>, after: seq<Call>) {
    exists i :: |before| <= i < |after| && TcloPoll(after[i])
  }

  /** The next thing attempted was to open the TCLO channel. */
  ghost predicate Opening(before: seq<Call>, after: seq<Call>) {
    |before| < |after| && before <= after && after[|before|].Open? && OnTclo(after[|before|])
  }
}
