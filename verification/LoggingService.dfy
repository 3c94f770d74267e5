/** loggingservice.go: the log level, kept in the world state of the current call. */
module LoggingService {
  import opened Wrappers
  import opened Strings
  import opened CompositeKeys
  import opened WorldState
  import opened DataServiceSpec
  import opened Ledger

  const DEFAULT_LEVEL := "INFO"

  /** The level in force: the stored one, else the environment's, else the default. */
  function InForce(reply: Reply, environment: Option<string>): string
    requires reply.Level?
  {
    if reply.stored.Some? then reply.stored.value
    else if environment.Some? then environment.value
    else DEFAULT_LEVEL
  }

  class LoggingService {
    var stub: Stub
    const environment: Option<string>

    constructor (stub: Stub, environment: Option<string>)
      ensures this.stub == stub && this.environment == environment
    {
      this.stub, this.environment := stub, environment;
    }

    /** From here on, levels are read from and written to this call's world state. */
    method SetStub(stub: Stub)
      modifies this
      ensures this.stub == stub
    {
      this.stub := stub;
    }

    method GetLevel() returns (level: string)
      ensures level == InForce(GetLogLevel(stub.state), environment)
      ensures LOG_LEVEL_KEY in stub.state ==> level == stub.state[LOG_LEVEL_KEY]
      ensures LOG_LEVEL_KEY !in stub.state ==> level == if environment.Some? then environment.value else "INFO"
    {
      var stored := stub.GetState(LOG_LEVEL_KEY);
      if stored.None? {
        level := if environment.Some? then environment.value else DEFAULT_LEVEL;
      } else {
        level := stored.value;
      }
    }

    /** The level is in force from then on, in upper case, and no collection or object of whatever
        the store represents has changed. */
    method SetLevel(level: string)
      modifies stub
      ensures stub.state == SetLogLevel(old(stub.state), level).0
      ensures var now := InForce(GetLogLevel(stub.state), environment); SameUpToCase(level, now) && forall c <- now :: !('a' <= c <= 'z')
      ensures forall l {:trigger Represents(old(stub.state), l)} ::
                Represents(old(stub.state), l) ==> Represents(stub.state, l.(logLevel := Some(Upper(level))))
    {
      ghost var before := stub.state;
      UpperIff(level, Upper(level));
      stub.PutState(LOG_LEVEL_KEY, Upper(level));
      forall l | Represents(before, l)
        ensures Represents(stub.state, l.(logLevel := Some(Upper(level))))
      {
        LogLevelRefines(before, l, level);
      }
    }
  }
}
