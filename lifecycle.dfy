/** The start/stop lifecycle of the addon's RPC server (`start_rpc_server`,
    `stop_rpc_server`): a module-level server instance that is either absent
    or serving at an address, and the drain timer a fresh start arms. */
module Lifecycle {

  import opened Values
  import Bridge
  import Dispatcher

  const DefaultHost: string := "localhost"
  const DefaultPort: nat := 9875

  /** `str(n)` for a natural number: its decimal digits. */
  function NatToString(n: nat): (r: string)
    ensures |r| >= 1
    ensures forall i :: 0 <= i < |r| ==> '0' <= r[i] <= '9'
    ensures |r| > 1 ==> r[0] != '0'
    decreases n
  {
    if n < 10 then [Digit(n)]
    else
      var prefix := NatToString(n / 10);
      prefix + [Digit(n % 10)]
  }

  function Digit(d: nat): (c: char)
    requires d < 10
    ensures '0' <= c <= '9' && c as int - '0' as int == d
  {
    ('0' as int + d) as char
  }

  /** The number a string of decimal digits spells. */
  function DigitsValue(s: string): (r: nat)
    requires forall i :: 0 <= i < |s| ==> '0' <= s[i] <= '9'
    decreases |s|
  {
    if s == [] then 0
    else DigitsValue(s[..|s| - 1]) * 10 + (s[|s| - 1] as int - '0' as int)
  }

  /** The port printed in the start message reads back as the port. */
  lemma {:induction false} NatToStringRoundTrip(n: nat)
    ensures DigitsValue(NatToString(n)) == n
    decreases n
  {
    var s := NatToString(n);
    if n >= 10 {
      NatToStringRoundTrip(n / 10);
      assert s[..|s| - 1] == NatToString(n / 10);
    } else {
      assert s[..|s| - 1] == [];
    }
  }

  /** The message of a fresh start. */
  function StartedMessage(host: string, port: nat): (r: string)
    ensures var head := "RPC Server started at " + host + ":";
      |head| < |r| && r[..|head|] == head && r[|r| - 1] == '.'
      && (forall i :: |head| <= i < |r| - 1 ==> '0' <= r[i] <= '9')
      && DigitsValue(r[|head|..|r| - 1]) == port
  {
    var head := "RPC Server started at " + host + ":";
    var digits := NatToString(port);
    NatToStringRoundTrip(port);
    var r := head + digits + ".";
    assert r[|head|..|r| - 1] == digits;
    r
  }

  class RpcServer {
    /** `rpc_server_instance`: the address it serves at, or None. */
    var instance: Option<(string, nat)>
    /** The GUI task bridge whose drain timer a fresh start arms. */
    const bridge: Bridge.Bridge<Dispatcher.Gui, Dispatcher.Task>

    constructor (b: Bridge.Bridge<Dispatcher.Gui, Dispatcher.Task>)
      ensures instance == None && bridge == b
    {
      instance := None;
      bridge := b;
    }

    /** `start_rpc_server(host="localhost", port=9875)`; `bindError` is what
        binding the address raises, if it raises. A server already running
        is left as it is. Otherwise the server is bound (a bind failure
        raises and changes nothing), starts serving, and one more drain
        timer is armed. */
    method Start(bindError: Option<string>, host: string := DefaultHost, port: nat := DefaultPort)
      returns (r: Result<string>)
      modifies this, bridge
      ensures old(instance).Some?
              ==> (r == Success("RPC Server already running.")
                   && instance == old(instance) && bridge.pendingTimers == old(bridge.pendingTimers))
      ensures old(instance).None? && bindError.Some?
              ==> (r == Failure(bindError.value)
                   && instance == None && bridge.pendingTimers == old(bridge.pendingTimers))
      ensures old(instance).None? && bindError.None?
              ==> (r == Success(StartedMessage(host, port)) && instance == Some((host, port))
                   && bridge.pendingTimers == old(bridge.pendingTimers) + 1)
      ensures bridge.requests == old(bridge.requests) && bridge.responses == old(bridge.responses)
      ensures bridge.gui == old(bridge.gui) && bridge.trace == old(bridge.trace)
    {
      if instance.Some? {
        return Success("RPC Server already running.");
      }
      if bindError.Some? {
        return Failure(bindError.value);
      }
      instance := Some((host, port));
      bridge.ArmTimer();
      r := Success(StartedMessage(host, port));
    }

    /** `stop_rpc_server()`. The drain timer chain is not cancelled. */
    method Stop() returns (msg: string)
      modifies this
      ensures old(instance).Some? ==> msg == "RPC Server stopped."
      ensures old(instance).None? ==> msg == "RPC Server was not running."
      ensures instance == None
    {
      if instance.Some? {
        instance := None;
        return "RPC Server stopped.";
      }
      msg := "RPC Server was not running.";
    }
  }

  /** Start then stop brings the server back to not running, but the timer
      the start armed stays pending: every further start adds another drain
      timer chain. */
  method StartStopStart(server: RpcServer, host: string, port: nat)
    returns (first: Result<string>, stopped: string, second: Result<string>)
    requires server.instance.None?
    modifies server, server.bridge
    ensures first == Success(StartedMessage(host, port)) && stopped == "RPC Server stopped."
    ensures second == first && server.instance == Some((host, port))
    ensures server.bridge.pendingTimers == old(server.bridge.pendingTimers) + 2
  {
    first := server.Start(None, host, port);
    stopped := server.Stop();
    second := server.Start(None, host, port);
  }
}
