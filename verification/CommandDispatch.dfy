/**
 What the connector checks before it runs a command, and when the idempotency cache is asked.
 */
module CommandDispatch {
  import opened Prelude
  import opened CommandCache
  import opened CommandProtocol

  /** The `args` of a command: absent or empty, an object with its hash, or something else. */
  datatype Args = Empty | Object(hash: string) | NotObject

  /** A command as it arrives; what is not text counts as absent. */
  datatype Payload = Payload(company: Option<string>, command: Option<string>, args: Args, key: Option<string>)

  /** The registration of the connector, and the commands it knows. */
  datatype Connector = Connector(
    registered: string, authorized: set<string>, handlers: set<string>, mutating: set<string>, emptyHash: string)

  predicate Authorized(c: Connector, p: Payload) {
    p.company.None? || p.company.value in if c.authorized == {} then {c.registered} else c.authorized
  }

  datatype Route = Mismatch | UnknownCommand | InvalidArgs | Direct | Cached(key: Key, hash: string)

  function RouteOf(c: Connector, p: Payload, hasCache: bool): Route {
    if !Authorized(c, p) then Mismatch
    else if p.command.None? || p.command.value !in c.handlers then UnknownCommand
    else if p.args.NotObject? then InvalidArgs
    else if hasCache && p.command.value in c.mutating && p.key.Some? && p.key.value != "" then
      Cached(Key(p.command.value, p.key.value), if p.args.Object? then p.args.hash else c.emptyHash)
    else Direct
  }

  function Refusal(code: string): Envelope {
    Envelope(false, false, code)
  }

  /**
   One command. A refused one asks neither Tally nor the cache; of the others only a mutating command
   with a key writes to the cache, and then as `Dispatched` says.
   */
  method DispatchCommand(
      c: Connector, p: Payload, cache: IdempotencyCache?, outcome: Outcome, cut: nat, lands: bool,
      insertAt: int, settleAt: int)
    returns (reply: Option<Envelope>, ran: bool)
    modifies if cache == null then {} else {cache}
    ensures
      match RouteOf(c, p, cache != null)
      case Mismatch => !ran && reply == Some(Refusal("company_mismatch"))
      case UnknownCommand => !ran && reply == Some(Refusal("unknown_command"))
      case InvalidArgs => !ran && reply == Some(Refusal("invalid_args"))
      case Direct => ran && reply == if cut <= 2 then None else Some(EnvelopeOf(outcome))
      case Cached(key, hash) =>
        Dispatch(cache.rows, reply, ran) ==
        Dispatched(old(cache.rows), key, hash, outcome, cut, lands, insertAt, settleAt)
    ensures cache != null && !RouteOf(c, p, true).Cached? ==> cache.rows == old(cache.rows)
  {
    var authorized := if c.authorized == {} then {c.registered} else c.authorized;
    if p.company.Some? && p.company.value !in authorized {
      return Some(Refusal("company_mismatch")), false;
    }
    if p.command.None? || p.command.value !in c.handlers {
      return Some(Refusal("unknown_command")), false;
    }
    if p.args.NotObject? {
      return Some(Refusal("invalid_args")), false;
    }
    if cache != null && p.command.value in c.mutating && p.key.Some? && p.key.value != "" {
      var hash := if p.args.Object? then p.args.hash else c.emptyHash;
      reply, ran := DispatchMutatingWithCache(
        cache, Key(p.command.value, p.key.value), hash, outcome, cut, lands, insertAt, settleAt);
      return;
    }
    reply, ran := if cut <= 2 then None else Some(EnvelopeOf(outcome)), true;
  }

  /**
   The four ways a command can go, by what it says: the first of company, command and arguments that
   is wrong decides; the cache is asked for mutating commands with a key that is not empty.
   */
  lemma {:induction false} Routes(c: Connector, p: Payload, hasCache: bool)
    ensures
      var foreign :=
        p.company.Some? && p.company.value !in c.authorized && (c.authorized != {} || p.company.value != c.registered);
      var unknown := p.command == None || p.command.value !in c.handlers;
      var keyed :=
        p.key.Some? && p.key != Some("") && p.command.Some? && p.command.value in c.mutating && hasCache;
      var route := RouteOf(c, p, hasCache);
      && (route == Mismatch <==> foreign)
      && (route == UnknownCommand <==> !foreign && unknown)
      && (route == InvalidArgs <==> !foreign && !unknown && p.args == NotObject)
      && (route.Cached? <==> !foreign && !unknown && p.args != NotObject && keyed)
      && (route.Cached? ==> route.key == Key(p.command.value, p.key.value))
      && (route.Cached? ==> route.hash == if p.args == Empty then c.emptyHash else p.args.hash)
  {
  }
}
