/** What the message handler promises, stated over `Handler.Handle`: the
    type filter, case-insensitive dispatch on the first word, the exact
    replies, the command text and timeout requested by `exec`/`exect`, and
    the cases that fault instead of replying. */
module MessageProperties {
  import opened Wrappers
  import opened Text
  import opened Numbers
  import opened Handler

  /** `body` is `lead + w + rest` with `w` its first word. */
  predicate FirstWordOf(lead: string, w: string, rest: string) {
    AllSpace(lead) && IsWord(w) && (rest == [] || IsSpace(rest[0]))
  }

  /** A message of any type but chat or normal gets no reply and raises
      nothing, whatever its text. */
  lemma OtherTypesIgnored(kind: string, body: string, env: Env)
    requires !Accepted(kind)
    ensures Handle(kind, body, env) == NoReply
  {
  }

  /** Carrying out an action is silent, without a fault, only when the
      action is to ignore the message. */
  lemma CompleteSilentExactly(body: string, action: Action, env: Env)
    ensures Complete(body, action, env) == NoReply <==> action.Ignore?
  {
    match action {
      case WanIp =>
        match env.run(WanIpRequest) {
          case Success(out) =>
          case _ =>
        }
      case Shell(c, t) =>
        match env.lex(c) {
          case None =>
          case Some(argv) =>
            if argv != [] {
              match env.run(Request(argv, t, true)) {
                case OtherFailure =>
                case _ =>
              }
            }
        }
      case _ =>
    }
  }

  lemma ParseTokensExect(tokens: seq<string>)
    requires tokens != [] && Route(Lower(tokens[0])) == Exect
    ensures ParseTokens(tokens).Fail? || ParseTokens(tokens).Shell?
    ensures ParseTokens(tokens).Fail? <==> |tokens| < 2 || ParseInt(tokens[1]).None?
  {
  }

  lemma RouteExect(cmd: string)
    ensures Route(cmd) == Exect <==> cmd == "exect"
  {
  }

  /** The handler is silent without faulting exactly when the message type
      is filtered out or the first word is not one of the five keywords;
      every other message is answered or faults. */
  lemma SilentExactly(kind: string, body: string, env: Env)
    ensures Handle(kind, body, env) == NoReply <==>
      !Accepted(kind) || (Split(body) != [] && Route(Lower(Split(body)[0])) == Other)
  {
    CompleteSilentExactly(body, Parse(kind, body), env);
    if Accepted(kind) && Split(body) != [] {
      var tokens := Split(body);
      ParseAccepted(kind, body);
      ParseTokensByRoute(tokens);
      if Route(Lower(tokens[0])) == Exect {
        ParseTokensExect(tokens);
      }
    }
  }

  lemma KeywordsLowerCase(k: string)
    requires k in Keywords
    ensures IsLowerAscii(k) && |k| > 0 && Route(k) != Other
  {
    if k == "help" {
    } else if k == "ip" {
    } else if k == "exect" {
    } else if k == "exec" {
    } else {
      assert k == "ping";
    }
  }

  /** A word selects keyword `k` exactly when it spells `k` in any mix of
      upper and lower case. */
  lemma RouteIgnoresCase(w: string, k: string)
    requires k in Keywords
    ensures Route(Lower(w)) == Route(k) <==> CaseVariant(w, k)
  {
    KeywordsLowerCase(k);
    LowerMatchesCaseVariants(w, k);
  }

  lemma CaseVariantOfKeyword(w: string, k: string)
    requires k in Keywords && CaseVariant(w, k)
    ensures IsWord(w) && Lower(w) == k
  {
    KeywordsLowerCase(k);
    CaseVariantIsWord(w, k);
    LowerMatchesCaseVariants(w, k);
  }

  /** The branch taken for each keyword, given the tokens. */
  lemma ParseTokensByRoute(tokens: seq<string>)
    requires tokens != []
    ensures Route(Lower(tokens[0])) == Help ==> ParseTokens(tokens) == Say(HelpText)
    ensures Route(Lower(tokens[0])) == Ip ==> ParseTokens(tokens) == WanIp
    ensures Route(Lower(tokens[0])) == Exec ==> ParseTokens(tokens) == Shell(Join(tokens[1..]), DefaultTimeout)
    ensures Route(Lower(tokens[0])) == Ping ==> ParseTokens(tokens) == Say("pong")
    ensures Route(Lower(tokens[0])) == Other ==> ParseTokens(tokens) == Ignore
  {
  }

  lemma ParseAccepted(kind: string, body: string)
    requires Accepted(kind) && Split(body) != []
    ensures Parse(kind, body) == ParseTokens(Split(body))
  {
  }

  /** The first word decides the branch: leading whitespace and everything
      after the first word are irrelevant to which keyword is chosen. */
  lemma FirstWordDecides(kind: string, lead: string, w: string, rest: string)
    requires Accepted(kind) && FirstWordOf(lead, w, rest)
    ensures Parse(kind, lead + w + rest) == ParseTokens([w] + Split(rest))
  {
    FirstToken(lead, w, rest);
    ParseAccepted(kind, lead + w + rest);
  }

  /** `ping`, in any case, is answered with exactly "pong". */
  lemma PingAnyCase(kind: string, lead: string, w: string, rest: string, env: Env)
    requires Accepted(kind) && AllSpace(lead) && (rest == [] || IsSpace(rest[0]))
    requires CaseVariant(w, "ping")
    ensures Handle(kind, lead + w + rest, env) == Reply("pong")
  {
    CaseVariantOfKeyword(w, "ping");
    FirstWordDecides(kind, lead, w, rest);
    ParseTokensByRoute([w] + Split(rest));
  }

  /** `help`, in any case, is answered with the fixed help text. */
  lemma HelpAnyCase(kind: string, lead: string, w: string, rest: string, env: Env)
    requires Accepted(kind) && AllSpace(lead) && (rest == [] || IsSpace(rest[0]))
    requires CaseVariant(w, "help")
    ensures Handle(kind, lead + w + rest, env) == Reply(HelpText)
  {
    CaseVariantOfKeyword(w, "help");
    FirstWordDecides(kind, lead, w, rest);
    ParseTokensByRoute([w] + Split(rest));
  }

  predicate LineAt(text: string, prefix: string, i: int) {
    0 < i && i + |prefix| <= |text| && text[i - 1] == '\n' && text[i..i + |prefix|] == prefix
  }

  lemma LineAtJoin(before: string, line: string, prefix: string)
    requires |before| > 0 && before[|before| - 1] == '\n'
    requires |prefix| <= |line| && line[..|prefix|] == prefix
    ensures LineAt(before + line, prefix, |before|)
  {
    var text := before + line;
    assert text[|before| - 1] == before[|before| - 1];
    assert text[|before|..|before| + |prefix|] == line[..|prefix|];
  }

  lemma LineAtExtend(text: string, more: string, prefix: string, i: int)
    requires LineAt(text, prefix, i)
    ensures LineAt(text + more, prefix, i)
  {
    assert (text + more)[i - 1] == text[i - 1];
    assert (text + more)[i..i + |prefix|] == text[i..i + |prefix|];
  }

  /** Where each command's line starts in the help text. */
  lemma HelpLineOffsets()
    ensures LineAt(HelpText, "help ", |HelpTitle|)
    ensures LineAt(HelpText, "ip ", |HelpTitle + HelpHelp|)
    ensures LineAt(HelpText, "exec ", |HelpTitle + HelpHelp + HelpIp|)
    ensures LineAt(HelpText, "exect ", |HelpTitle + HelpHelp + HelpIp + HelpExec|)
    ensures LineAt(HelpText, "ping ", |HelpTitle + HelpHelp + HelpIp + HelpExec + HelpExect|)
  {
    var h1 := HelpTitle + HelpHelp;
    var h2 := h1 + HelpIp;
    var h3 := h2 + HelpExec;
    var h4 := h3 + HelpExect;
    assert HelpText == h4 + HelpPing;

    LineAtJoin(HelpTitle, HelpHelp, "help ");
    LineAtExtend(h1, HelpIp, "help ", |HelpTitle|);
    LineAtExtend(h2, HelpExec, "help ", |HelpTitle|);
    LineAtExtend(h3, HelpExect, "help ", |HelpTitle|);
    LineAtExtend(h4, HelpPing, "help ", |HelpTitle|);

    LineAtJoin(h1, HelpIp, "ip ");
    LineAtExtend(h2, HelpExec, "ip ", |h1|);
    LineAtExtend(h3, HelpExect, "ip ", |h1|);
    LineAtExtend(h4, HelpPing, "ip ", |h1|);

    LineAtJoin(h2, HelpExec, "exec ");
    LineAtExtend(h3, HelpExect, "exec ", |h2|);
    LineAtExtend(h4, HelpPing, "exec ", |h2|);

    LineAtJoin(h3, HelpExect, "exect ");
    LineAtExtend(h4, HelpPing, "exect ", |h3|);

    LineAtJoin(h4, HelpPing, "ping ");
  }

  /** The help text has a line for each of the five commands, starting with
      the command's keyword. */
  lemma HelpNamesEveryCommand()
    ensures forall k :: k in Keywords ==> exists i :: LineAt(HelpText, k + " ", i)
  {
    HelpLineOffsets();
    forall k | k in Keywords ensures exists i :: LineAt(HelpText, k + " ", i) {
      if k == "help" {
        assert k + " " == "help ";
      } else if k == "ip" {
        assert k + " " == "ip ";
      } else if k == "exect" {
        assert k + " " == "exect ";
      } else if k == "exec" {
        assert k + " " == "exec ";
      } else {
        assert k == "ping";
        assert k + " " == "ping ";
      }
    }
  }

  /** A first word that spells none of the keywords, in any case, is
      dropped silently. */
  lemma UnknownSilent(kind: string, lead: string, w: string, rest: string, env: Env)
    requires Accepted(kind) && FirstWordOf(lead, w, rest)
    requires forall k :: k in Keywords ==> !CaseVariant(w, k)
    ensures Handle(kind, lead + w + rest, env) == NoReply
  {
    FirstWordDecides(kind, lead, w, rest);
    RouteIgnoresCase(w, "help");
    RouteIgnoresCase(w, "ip");
    RouteIgnoresCase(w, "exect");
    RouteIgnoresCase(w, "exec");
    RouteIgnoresCase(w, "ping");
  }

  /** `ip`, in any case, runs `get-wan-ip` alone with a 60-second deadline
      and without merging standard error, ignoring any further words. */
  lemma IpAnyCase(kind: string, lead: string, w: string, rest: string)
    requires Accepted(kind) && AllSpace(lead) && (rest == [] || IsSpace(rest[0]))
    requires CaseVariant(w, "ip")
    ensures Parse(kind, lead + w + rest) == WanIp
    ensures WanIpRequest == Request(["get-wan-ip"], 60, false)
  {
    CaseVariantIsWord(w, "ip");
    FirstWordDecides(kind, lead, w, rest);
    RouteIgnoresCase(w, "ip");
  }

  /** `exec`, in any case, runs the words after it joined by single spaces,
      with a 60-second deadline; the command text has every run of
      whitespace collapsed and splits back into exactly those words. */
  lemma ExecAnyCase(kind: string, lead: string, w: string, rest: string)
    requires Accepted(kind) && AllSpace(lead) && (rest == [] || IsSpace(rest[0]))
    requires CaseVariant(w, "exec")
    ensures Parse(kind, lead + w + rest) == Shell(Join(Split(rest)), 60)
    ensures Collapsed(Join(Split(rest))) && Split(Join(Split(rest))) == Split(rest)
  {
    CaseVariantOfKeyword(w, "exec");
    FirstWordDecides(kind, lead, w, rest);
    var tokens := [w] + Split(rest);
    ParseTokensByRoute(tokens);
    assert tokens[1..] == Split(rest);
    CollapseWhitespace(rest);
  }

  lemma ParseExectArgs(w: string, args: seq<string>)
    requires Route(Lower(w)) == Exect
    ensures args == [] ==> ParseTokens([w] + args) == Fail(NoTimeoutArg)
    ensures args != [] && ParseInt(args[0]).None? ==> ParseTokens([w] + args) == Fail(BadTimeoutArg)
    ensures args != [] && ParseInt(args[0]).Some? ==>
      ParseTokens([w] + args) == Shell(Join(args[1..]), ParseInt(args[0]).value)
  {
    var tokens := [w] + args;
    assert tokens[0] == w;
    if args != [] {
      assert tokens[1] == args[0];
      assert tokens[2..] == args[1..];
    }
  }

  /** The words after the first, joined by single spaces, form a collapsed
      command text that splits back into exactly those words. */
  lemma JoinedTail(args: seq<string>)
    requires AllWords(args) && args != []
    ensures Collapsed(Join(args[1..])) && Split(Join(args[1..])) == args[1..]
  {
    assert AllWords(args[1..]) by {
      forall i | 0 <= i < |args| - 1 ensures IsWord(args[1..][i]) {
        assert args[1..][i] == args[i + 1];
      }
    }
    JoinCollapsed(args[1..]);
    SplitJoin(args[1..]);
  }

  /** `exect`, in any case, reads its deadline from the next word with
      `int()` and runs the words after that, joined by single spaces; a
      missing or non-integer deadline faults before anything runs. */
  lemma ExectAnyCase(kind: string, lead: string, w: string, rest: string)
    requires Accepted(kind) && AllSpace(lead) && (rest == [] || IsSpace(rest[0]))
    requires CaseVariant(w, "exect")
    ensures Split(rest) == [] ==> Parse(kind, lead + w + rest) == Fail(NoTimeoutArg)
    ensures Split(rest) != [] && ParseInt(Split(rest)[0]).None? ==>
      Parse(kind, lead + w + rest) == Fail(BadTimeoutArg)
    ensures Split(rest) != [] && ParseInt(Split(rest)[0]).Some? ==>
      Parse(kind, lead + w + rest) == Shell(Join(Split(rest)[1..]), ParseInt(Split(rest)[0]).value)
    ensures Split(rest) != [] ==>
      Collapsed(Join(Split(rest)[1..])) && Split(Join(Split(rest)[1..])) == Split(rest)[1..]
  {
    CaseVariantOfKeyword(w, "exect");
    FirstWordDecides(kind, lead, w, rest);
    ParseExectArgs(w, Split(rest));
    if Split(rest) != [] {
      JoinedTail(Split(rest));
    }
  }

  /** The reply to a command that ran: the output verbatim on success; on
      a timeout or a non-zero exit the original text, a marker and the
      output captured so far. A timeout that captured nothing leaves
      `e.output` as `None`, and decoding it raises. */
  lemma ShellReplies(kind: string, body: string, env: Env, command: string, timeout: int,
                     argv: seq<string>, out: Bytes, text: string)
    requires Parse(kind, body) == Shell(command, timeout)
    requires env.lex(command) == Some(argv) && argv != []
    requires env.decode(out) == Some(text)
    ensures env.run(Request(argv, timeout, true)) == Success(out) ==>
      Handle(kind, body, env) == Reply(text)
    ensures env.run(Request(argv, timeout, true)) == TimedOut(Some(out)) ==>
      Handle(kind, body, env) == Reply(body + " timeout:\n\n" + text)
    ensures env.run(Request(argv, timeout, true)) == TimedOut(None) ==>
      Handle(kind, body, env) == Raise(NoOutput)
    ensures env.run(Request(argv, timeout, true)) == NonZeroExit(out) ==>
      Handle(kind, body, env) == Reply(body + " error:\n\n" + text)
  {
    assert "" + text == text;
  }

  /** A command that ran but ended badly is reported with the original
      text first, so the requester can tell which request it answers. */
  lemma FailureReplyEchoesBody(kind: string, body: string, env: Env, command: string, timeout: int,
                               argv: seq<string>, text: string)
    requires Parse(kind, body) == Shell(command, timeout)
    requires env.lex(command) == Some(argv) && argv != []
    requires !env.run(Request(argv, timeout, true)).Success?
    requires Handle(kind, body, env) == Reply(text)
    ensures |text| > |body| && text[..|body|] == body
  {
    FailureEchoesBody(body, env, Request(argv, timeout, true), command, text);
  }

  /** `FailureReplyEchoesBody` for the effect of running one request. */
  lemma FailureEchoesBody(body: string, env: Env, req: Request, command: string, text: string)
    requires env.lex(command) == Some(req.argv) && req.argv != [] && req.mergeStderr
    requires !env.run(req).Success?
    requires Complete(body, Shell(command, req.timeout), env) == Reply(text)
    ensures |text| > |body| && text[..|body|] == body
  {
    var o := env.run(req);
    var marker := if o.TimedOut? then " timeout:\n\n" else " error:\n\n";
    var captured := if o.TimedOut? then o.partial.value else o.out;
    var decoded := env.decode(captured).value;
    assert text == body + (marker + decoded);
  }

  /** The `ip` reply: the helper's output on success; on a timeout the
      original text and " timeout" with no output; a non-zero exit is not
      caught and faults. */
  lemma WanIpReplies(kind: string, body: string, env: Env, out: Bytes, text: string)
    requires Parse(kind, body) == WanIp
    requires env.decode(out) == Some(text)
    ensures env.run(WanIpRequest) == Success(out) ==> Handle(kind, body, env) == Reply(text)
    ensures env.run(WanIpRequest).TimedOut? ==> Handle(kind, body, env) == Reply(body + " timeout")
    ensures env.run(WanIpRequest).NonZeroExit? ==> Handle(kind, body, env) == Raise(WanIpFailed)
  {
    assert "" + text == text;
  }

  /** Faults that happen before anything runs: exactly an empty or
      whitespace-only body, or an `exect` whose deadline word is missing or
      not an integer. */
  lemma FaultsExactly(kind: string, body: string)
    ensures Parse(kind, body).Fail? <==>
      (Accepted(kind) &&
       (AllSpace(body) ||
        (Lower(Split(body)[0]) == "exect" && (|Split(body)| < 2 || ParseInt(Split(body)[1]).None?))))
  {
    SplitEmpty(body);
    if Accepted(kind) && Split(body) != [] {
      var tokens := Split(body);
      ParseAccepted(kind, body);
      ParseTokensByRoute(tokens);
      RouteExect(Lower(tokens[0]));
      if Route(Lower(tokens[0])) == Exect {
        ParseTokensExect(tokens);
      }
    }
  }

  /** An `exec` with no words after it asks the process layer to run an
      empty command line and faults there. */
  lemma BareExecFaults(kind: string, lead: string, w: string, rest: string, env: Env)
    requires Accepted(kind) && AllSpace(lead) && AllSpace(rest) && (rest == [] || IsSpace(rest[0]))
    requires CaseVariant(w, "exec")
    requires env.lex("") == Some([])
    ensures Handle(kind, lead + w + rest, env) == Raise(EmptyArgv)
  {
    ExecAnyCase(kind, lead, w, rest);
    SplitEmpty(rest);
    assert Join(Split(rest)) == "";
    assert Handle(kind, lead + w + rest, env) == Complete(lead + w + rest, Shell("", 60), env);
  }

  /** An `exect` with a valid deadline and no words after it likewise asks
      the process layer to run an empty command line and faults there. */
  lemma BareExectFaults(kind: string, lead: string, w: string, n: string, rest: string, env: Env)
    requires Accepted(kind) && AllSpace(lead) && AllSpace(rest)
    requires CaseVariant(w, "exect") && IsWord(n) && ParseInt(n).Some?
    requires env.lex("") == Some([])
    ensures Handle(kind, lead + w + " " + n + rest, env) == Raise(EmptyArgv)
  {
    BareExectParse(kind, lead, w, n, rest);
    assert lead + w + " " + n + rest == lead + w + (" " + n + rest);
  }

  /** The decision for a bare `exect` with a valid deadline: run the empty
      command line. */
  lemma BareExectParse(kind: string, lead: string, w: string, n: string, rest: string)
    requires Accepted(kind) && AllSpace(lead) && AllSpace(rest)
    requires CaseVariant(w, "exect") && IsWord(n) && ParseInt(n).Some?
    ensures Parse(kind, lead + w + (" " + n + rest)) == Shell("", ParseInt(n).value)
  {
    var tail := " " + n + rest;
    LoneWord(n, rest);
    ExectAnyCase(kind, lead, w, tail);
    assert Join(Split(tail)[1..]) == "";
  }

  /** A space, one word and trailing whitespace split into that word alone. */
  lemma LoneWord(n: string, rest: string)
    requires IsWord(n) && AllSpace(rest)
    ensures Split(" " + n + rest) == [n]
  {
    assert " " + n + rest == " " + (n + rest);
    SplitSkipsLeadingSpace(" ", n + rest);
    SplitWord(n, rest);
    SplitEmpty(rest);
  }
}
