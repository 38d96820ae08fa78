/** The inbound-message handler of PulceBot: the type filter, the split of
    the body into tokens, the five-way keyword table (help, ip, exect, exec,
    ping), the extraction of the command and timeout for `exec`/`exect`, and
    the reply built from the outcome of running the command.

    What the handler cannot see is a parameter: the environment `Env` lexes
    a command line (`shlex.split`), runs a process under a deadline and
    reports how it ended (`subprocess.check_output`), and decodes captured
    bytes as UTF-8. An exception the handler does not catch is the effect
    `Raise`; sending a reply is the effect `Reply`. */
module Handler {
  import opened Wrappers
  import opened Text
  import opened Numbers

  newtype byte = b: int | 0 <= b < 256
  type Bytes = seq<byte>

  /** A process launch: the argument vector, the deadline in seconds and
      whether standard error is merged into the captured output. */
  datatype Request = Request(argv: seq<string>, timeout: int, mergeStderr: bool)

  /** How a launched process ended, with the output captured so far. */
  datatype Outcome =
    | Success(out: Bytes)       // exit status zero
    | TimedOut(partial: Option<Bytes>)  // killed at the deadline; None when nothing was captured
    | NonZeroExit(out: Bytes)   // exit status other than zero
    | OtherFailure              // any other exception from check_output, e.g. no such program

  datatype Env = Env(
    lex: string -> Option<seq<string>>,   // None: the lexer rejects the text
    run: Request -> Outcome,
    decode: Bytes -> Option<string>)      // None: the bytes are not UTF-8

  /** The exceptions that escape the handler; none of them produces a reply. */
  datatype Error =
    | NoTokens        // `tokens[0]` of an empty or whitespace-only body
    | NoTimeoutArg    // `tokens[1]` of an `exect` with nothing after it
    | BadTimeoutArg   // `int(tokens[1])` of a non-integer
    | LexError        // the lexer rejects the command text
    | EmptyArgv       // a command line with no words
    | RunError        // any other exception raised by check_output
    | WanIpFailed     // `get-wan-ip` exited with a non-zero status
    | DecodeError     // captured output is not UTF-8
    | NoOutput        // `e.output.decode` of a timeout that captured nothing (`None`)

  datatype Command = Help | Ip | Exect | Exec | Ping | Other

  /** What the handler decides from the message alone, before anything runs. */
  datatype Action =
    | Ignore
    | Fail(error: Error)
    | Say(text: string)
    | WanIp
    | Shell(command: string, timeout: int)

  datatype Effect = NoReply | Reply(text: string) | Raise(error: Error)

  const DefaultTimeout: int := 60
  const WanIpRequest: Request := Request(["get-wan-ip"], DefaultTimeout, false)
  const Keywords: seq<string> := ["help", "ip", "exect", "exec", "ping"]

  const HelpTitle := "\n\nPulce Bot's HELP\n\n"
  // Each help line is written as its keyword and the rest of the line.
  const HelpHelp := "help " + "=> shows this help\n"
  const HelpIp := "ip " + "=> returns the external/WAN IP address\n"
  const HelpExec := "exec " + "<command> => exec <command> and returns output (timeout = 60s)\n"
  const HelpExect := "exect " + "<timeout> <command> => exec <command> and returns output (timeout = <timeout>s)\n"
  const HelpPing := "ping " + "=> replays with pong. What did you expect?!\n"
  const HelpText := HelpTitle + HelpHelp + HelpIp + HelpExec + HelpExect + HelpPing

  /** Only one-to-one message types are processed. */
  predicate Accepted(kind: string) {
    kind == "chat" || kind == "normal"
  }

  /** The keyword table, applied to the lower-cased first token: exactly
      the five keywords select a command. */
  function Route(cmd: string): (c: Command)
    ensures c != Other <==> cmd in Keywords
  {
    if cmd == "help" then Help
    else if cmd == "ip" then Ip
    else if cmd == "exect" then Exect
    else if cmd == "exec" then Exec
    else if cmd == "ping" then Ping
    else Other
  }

  function Parse(kind: string, body: string): Action {
    if !Accepted(kind) then Ignore
    else
      var tokens := Split(body);
      if tokens == [] then Fail(NoTokens)
      else ParseTokens(tokens)
  }

  /** The keyword table and argument extraction, given at least one token. */
  function ParseTokens(tokens: seq<string>): Action
    requires tokens != []
  {
    match Route(Lower(tokens[0]))
    case Help => Say(HelpText)
    case Ip => WanIp
    case Exect =>
      if |tokens| < 2 then Fail(NoTimeoutArg)
      else (match ParseInt(tokens[1])
        case None => Fail(BadTimeoutArg)
        case Some(t) => Shell(Join(tokens[2..]), t))
    case Exec => Shell(Join(tokens[1..]), DefaultTimeout)
    case Ping => Say("pong")
    case Other => Ignore
  }

  /** The reply `prefix + out.decode('utf8')`. */
  function DecodedReply(env: Env, out: Bytes, prefix: string): Effect {
    match env.decode(out)
    case None => Raise(DecodeError)
    case Some(text) => Reply(prefix + text)
  }

  /** The effect of carrying out `action` for a message with text `body`. */
  function Complete(body: string, action: Action, env: Env): Effect {
    match action
    case Ignore => NoReply
    case Fail(e) => Raise(e)
    case Say(text) => Reply(text)
    case WanIp =>
      (match env.run(WanIpRequest)
       case Success(out) => DecodedReply(env, out, "")
       case TimedOut(_) => Reply(body + " timeout")
       case NonZeroExit(_) => Raise(WanIpFailed)
       case OtherFailure => Raise(RunError))
    case Shell(command, timeout) =>
      (match env.lex(command)
       case None => Raise(LexError)
       case Some(argv) =>
         if argv == [] then Raise(EmptyArgv)
         else
           (match env.run(Request(argv, timeout, true))
            case Success(out) => DecodedReply(env, out, "")
            case TimedOut(partial) =>
              (match partial
               case None => Raise(NoOutput)
               case Some(out) => DecodedReply(env, out, body + " timeout:\n\n"))
            case NonZeroExit(out) => DecodedReply(env, out, body + " error:\n\n")
            case OtherFailure => Raise(RunError)))
  }

  /** The handler's whole effect on a message of type `kind` and text `body`. */
  function Handle(kind: string, body: string, env: Env): Effect {
    Complete(body, Parse(kind, body), env)
  }

  /** The `try` blocks of `exec` and `exect`: lex, run with merged standard
      error, and turn the outcome into a reply. */
  method RunCommand(body: string, cmdToExec: string, execTimeout: int, env: Env) returns (effect: Effect)
    ensures effect == Complete(body, Shell(cmdToExec, execTimeout), env)
  {
    var argv := env.lex(cmdToExec);
    if argv.None? {
      return Raise(LexError);
    }
    if argv.value == [] {
      return Raise(EmptyArgv);
    }
    var outcome := env.run(Request(argv.value, execTimeout, true));
    match outcome {
      case Success(out) =>
        effect := DecodedReply(env, out, "");
      case TimedOut(partial) =>
        if partial.None? {
          return Raise(NoOutput);
        }
        effect := DecodedReply(env, partial.value, body + " timeout:\n\n");
      case NonZeroExit(out) =>
        effect := DecodedReply(env, out, body + " error:\n\n");
      case OtherFailure =>
        effect := Raise(RunError);
    }
  }

  /** The `try` block of `ip`: run the helper with a 60-second deadline;
      only a timeout is caught. */
  method QueryWanIp(body: string, env: Env) returns (effect: Effect)
    ensures effect == Complete(body, WanIp, env)
  {
    var outcome := env.run(WanIpRequest);
    match outcome {
      case Success(out) =>
        effect := DecodedReply(env, out, "");
      case TimedOut(_) =>
        effect := Reply(body + " timeout");
      case NonZeroExit(_) =>
        effect := Raise(WanIpFailed);
      case OtherFailure =>
        effect := Raise(RunError);
    }
  }

  /** The message handler step by step: the token list loses its first one
      or two entries in place before being re-joined, and the help text is
      built by appending line after line. */
  method Message(kind: string, body: string, env: Env) returns (effect: Effect)
    ensures effect == Handle(kind, body, env)
  {
    effect := NoReply;
    if kind == "chat" || kind == "normal" {
      var tokens := Split(body);
      if tokens == [] {
        return Raise(NoTokens);
      }
      effect := Dispatch(body, tokens, env);
    }
  }

  /** The keyword branches of the handler, given the body's tokens. */
  method Dispatch(body: string, tokens: seq<string>, env: Env) returns (effect: Effect)
    requires tokens != []
    ensures effect == Complete(body, ParseTokens(tokens), env)
  {
    effect := NoReply;
    var tokens := tokens;
    ghost var action := ParseTokens(tokens);
    var cmd := Lower(tokens[0]);
    if cmd == "help" {
      var help := HelpTitle;
      help := help + HelpHelp;
      help := help + HelpIp;
      help := help + HelpExec;
      help := help + HelpExect;
      help := help + HelpPing;
      assert action == Say(help);
      effect := Reply(help);
    } else if cmd == "ip" {
      assert action == WanIp;
      effect := QueryWanIp(body, env);
    } else if cmd == "exect" {
      if |tokens| < 2 {
        assert action == Fail(NoTimeoutArg);
        return Raise(NoTimeoutArg);
      }
      var parsed := ParseInt(tokens[1]);
      if parsed.None? {
        assert action == Fail(BadTimeoutArg);
        return Raise(BadTimeoutArg);
      }
      var execTimeout := parsed.value;
      assert action == Shell(Join(tokens[2..]), execTimeout);
      tokens := tokens[2..];
      var cmdToExec := Join(tokens);
      effect := RunCommand(body, cmdToExec, execTimeout, env);
    } else if cmd == "exec" {
      assert action == Shell(Join(tokens[1..]), DefaultTimeout);
      tokens := tokens[1..];
      var cmdToExec := Join(tokens);
      effect := RunCommand(body, cmdToExec, DefaultTimeout, env);
    } else if cmd == "ping" {
      assert action == Say("pong");
      effect := Reply("pong");
    } else {
      assert action == Ignore;
    }
  }
}
