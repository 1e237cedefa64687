/**
 Registration and dispatch of chat commands (src/core/command_parser.cpp).

 A handler is a value here: dispatch returns the handler to run with its command word and its
 arguments, and the engine says what running it does.
 */
module Parser {
  import opened Text
  import opened Tokenizer
  import opened Grammar

  const PREFIX := "!"

  datatype Call<+H> = Call(handler: H, command: string, args: seq<string>)

  datatype Registration<+H> = Registration(name: string, handler: Option<H>)

  // ---------- what registering and dispatching compute ----------

  predicate Accepted<H>(r: Registration<H>) {
    r.name != "" && r.handler.Some?
  }

  function Register<H>(commands: map<string, H>, r: Registration<H>): map<string, H> {
    if Accepted(r) then commands[Lower(r.name) := r.handler.value] else commands
  }

  function RegisterAll<H>(commands: map<string, H>, rs: seq<Registration<H>>): map<string, H> {
    if |rs| == 0 then commands
    else Register(RegisterAll(commands, rs[..|rs| - 1]), rs[|rs| - 1])
  }

  predicate IsCommand(text: string) {
    text != "" && PREFIX <= text
  }

  /** The command word and its arguments; the empty word when there is none. */
  function ParseCommand(text: string): (string, seq<string>) {
    if !IsCommand(text) then ("", [])
    else
      var tokens := Tokens(text[|PREFIX|..]);
      if |tokens| == 0 then ("", []) else (tokens[0], tokens[1..])
  }

  function Dispatch<H>(commands: map<string, H>, text: string): Option<Call<H>> {
    if !IsCommand(text) then None
    else
      var (command, args) := ParseCommand(text);
      if command == "" || Lower(command) !in commands then None
      else Some(Call(commands[Lower(command)], command, args))
  }

  // ---------- the parser object ----------

  class CommandParser<H(!new)> {
    var commands: map<string, H>

    constructor ()
      ensures commands == map[]
    {
      commands := map[];
    }

    method RegisterCommand(name: string, handler: Option<H>)
      modifies this
      ensures commands == Register(old(commands), Registration(name, handler))
    {
      if name == "" {
        return;
      }
      if handler.None? {
        return;
      }
      commands := commands[Lower(name) := handler.value];
    }

    method ParseAndExecute(text: string) returns (call: Option<Call<H>>)
      ensures call == Dispatch(commands, text)
    {
      if !IsCommand(text) {
        return None;
      }
      var tokens := Tokenize(text[|PREFIX|..]);
      if |tokens| == 0 {
        return None;
      }
      var command, args := tokens[0], tokens[1..];
      if command == "" || Lower(command) !in commands {
        return None;
      }
      return Some(Call(commands[Lower(command)], command, args));
    }
  }

  // ---------- the latest accepted registration wins, up to letter case ----------

  /** The handler of the last accepted registration whose name lower-cases to `key`. */
  function LastAccepted<H>(rs: seq<Registration<H>>, key: string): (r: Option<H>)
    ensures r.Some? ==> exists i :: 0 <= i < |rs| && Accepted(rs[i]) && Lower(rs[i].name) == key && rs[i].handler == r
    ensures r.None? ==> forall i :: 0 <= i < |rs| && Accepted(rs[i]) ==> Lower(rs[i].name) != key
  {
    if |rs| == 0 then None
    else if Accepted(rs[|rs| - 1]) && Lower(rs[|rs| - 1].name) == key then rs[|rs| - 1].handler
    else LastAccepted(rs[..|rs| - 1], key)
  }

  lemma {:induction false} LastAcceptedIsLast<H>(rs: seq<Registration<H>>, key: string) returns (i: nat)
    requires LastAccepted(rs, key).Some?
    ensures i < |rs| && rs[i].name != "" && rs[i].handler == LastAccepted(rs, key) && Lower(rs[i].name) == key
    ensures forall j :: i < j < |rs| && Lower(rs[j].name) == key ==> rs[j].name == "" || rs[j].handler.None?
  {
    var k := |rs| - 1;
    if Accepted(rs[k]) && Lower(rs[k].name) == key {
      i := k;
    } else {
      i := LastAcceptedIsLast(rs[..k], key);
    }
  }

  lemma {:induction false} LatestRegistrationWins<H>(commands: map<string, H>, rs: seq<Registration<H>>, key: string)
    ensures key in RegisterAll(commands, rs) <==> key in commands || LastAccepted(rs, key).Some?
    ensures LastAccepted(rs, key).Some? ==> RegisterAll(commands, rs)[key] == LastAccepted(rs, key).value
    ensures LastAccepted(rs, key).None? && key in commands ==> RegisterAll(commands, rs)[key] == commands[key]
  {
    if |rs| > 0 {
      LatestRegistrationWins(commands, rs[..|rs| - 1], key);
    }
  }

  /** Registering a second list changes nothing at a key where both lists end with the same handler. */
  lemma RegisteredBefore<H>(commands: map<string, H>, rs1: seq<Registration<H>>, rs2: seq<Registration<H>>, key: string)
    requires LastAccepted(rs2, key).Some? ==> LastAccepted(rs1, key) == LastAccepted(rs2, key)
    ensures var once := RegisterAll(commands, rs1);
            var twice := RegisterAll(once, rs2);
            (key in twice <==> key in once) && (key in once ==> twice[key] == once[key])
  {
    LatestRegistrationWins(commands, rs1, key);
    LatestRegistrationWins(RegisterAll(commands, rs1), rs2, key);
  }

  /** Whatever is registered, every key is a non-empty lower-case word. */
  lemma {:induction false} KeysAreLowerCase<H>(rs: seq<Registration<H>>, key: string)
    requires key in RegisterAll(map[], rs)
    ensures key != "" && Lower(key) == key
  {
    LatestRegistrationWins(map[], rs, key);
    var i :| 0 <= i < |rs| && Accepted(rs[i]) && Lower(rs[i].name) == key;
    LowerIdempotent(rs[i].name);
  }

  // ---------- dispatch ----------

  ghost predicate SameCallUpToCase<H(!new)>(a: Option<Call<H>>, b: Option<Call<H>>) {
    match (a, b)
    case (None, None) => true
    case (Some(x), Some(y)) =>
      x.handler == y.handler && Lower(x.command) == Lower(y.command) && LowerAll(x.args) == LowerAll(y.args)
    case _ => false
  }

  lemma ParseCommandLower(text: string)
    ensures var (command, args) := ParseCommand(text);
            ParseCommand(Lower(text)) == (Lower(command), LowerAll(args))
  {
    assert Lower("") == "" && LowerAll([]) == [];
    assert IsCommand(text) <==> IsCommand(Lower(text)) by {
      assert |text| > 0 ==> (text[0] == '!' <==> Lower(text)[0] == '!');
      assert IsCommand(text) <==> |text| > 0 && text[0] == '!';
      assert IsCommand(Lower(text)) <==> |text| > 0 && Lower(text)[0] == '!';
    }
    if IsCommand(text) {
      var body := text[|PREFIX|..];
      assert Lower(text)[|PREFIX|..] == Lower(body);
      TokensLower(body);
      assert |Tokens(body)| > 0 ==> LowerAll(Tokens(body))[1..] == LowerAll(Tokens(body)[1..]);
    }
  }

  /** Messages that differ only in letter case reach the same handler, with arguments equal up to case. */
  lemma DispatchIgnoresCase<H(!new)>(commands: map<string, H>, text1: string, text2: string)
    requires Lower(text1) == Lower(text2)
    ensures SameCallUpToCase(Dispatch(commands, text1), Dispatch(commands, text2))
  {
    ParseCommandLower(text1);
    ParseCommandLower(text2);
    var (command1, args1) := ParseCommand(text1);
    var (command2, args2) := ParseCommand(text2);
    assert Lower(command1) == Lower(command2);
    assert |command1| == |Lower(command1)| && |command2| == |Lower(command2)|;
    assert command1 == "" <==> command2 == "";
    assert IsCommand(text1) || ParseCommand(text1) == ("", []);
    assert IsCommand(text2) || ParseCommand(text2) == ("", []);
  }

  /** The first token of the text after the prefix picks the handler. */
  lemma DispatchTokens<H>(commands: map<string, H>, body: string)
    ensures var tokens := Tokens(body);
            Dispatch(commands, "!" + body)
              == if tokens == [] || Lower(tokens[0]) !in commands then None
                 else Some(Call(commands[Lower(tokens[0])], tokens[0], tokens[1..]))
  {
    var text := "!" + body;
    assert IsCommand(text) && text[|PREFIX|..] == body;
    TokensNonEmpty(START, body);
    assert Tokens(body) != [] ==> Tokens(body)[0] in Tokens(body);
  }

  /** Quoting the words of a command reaches the handler of its key, with the very arguments. */
  lemma QuotedWordsArrive<H>(commands: map<string, H>, name: string, args: seq<string>)
    requires name != "" && Lower(name) in commands
    requires forall i :: 0 <= i < |args| ==> args[i] != ""
    ensures Dispatch(commands, PREFIX + Printed([name] + args)) == Some(Call(commands[Lower(name)], name, args))
  {
    var words := [name] + args;
    assert forall i :: 0 <= i < |words| ==> words[i] != "";
    PrintRoundTrip(words);
    NonEmptyOfAll(words);
    DispatchTokens(commands, Printed(words));
    assert words[1..] == args;
  }

  /** Every accepted name can be called, in any letter case and with any non-empty arguments. */
  lemma RegisteredCommandIsReachable<H>(commands: map<string, H>, rs: seq<Registration<H>>,
                                        name: string, alike: string, args: seq<string>, handler: H)
    requires name != "" && Lower(alike) == Lower(name)
    requires LastAccepted(rs, Lower(name)) == Some(handler)
    requires forall i :: 0 <= i < |args| ==> args[i] != ""
    ensures Dispatch(RegisterAll(commands, rs), PREFIX + Printed([alike] + args)) == Some(Call(handler, alike, args))
  {
    assert |Lower(alike)| == |alike| && |Lower(name)| == |name|;
    LatestRegistrationWins(commands, rs, Lower(name));
    QuotedWordsArrive(RegisterAll(commands, rs), alike, args);
  }

  /** Text that does not begin with an exclamation mark is no command. */
  lemma OtherTextIsNoCommand<H>(commands: map<string, H>, text: string)
    requires text == "" || text[0] != '!'
    ensures Dispatch(commands, text) == None
  {
  }

  /** Every command text, whole or with a quotation left open or a backslash at its end: the first word
      of its reading picks the handler, the others are its arguments. */
  lemma EveryCommandReads<H>(commands: map<string, H>, r: Reading)
    requires ReadingOk(r)
    ensures var words := WordsOf(r);
            Dispatch(commands, "!" + SpelledReading(r))
              == if words == [] || Lower(words[0]) !in commands then None
                 else Some(Call(commands[Lower(words[0])], words[0], words[1..]))
  {
    EveryTextReads(r);
    DispatchTokens(commands, SpelledReading(r));
  }

  /** Plain words need no quoting. */
  lemma PlainWordsArrive<H>(commands: map<string, H>, name: string, args: seq<string>)
    requires Plain(name) && forall i :: 0 <= i < |args| ==> Plain(args[i])
    ensures Dispatch(commands, "!" + Joined([name] + args, " "))
         == if Lower(name) in commands then Some(Call(commands[Lower(name)], name, args)) else None
  {
    var words := [name] + args;
    PlainSurvives(words);
    DispatchTokens(commands, Joined(words, " "));
    assert words[1..] == args;
  }
}
