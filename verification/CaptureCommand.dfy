/** The command that asks for a packet capture: an interface name, or a tcpdump command line. */
module CaptureCommand {
  import opened Wrappers

  datatype ParseError = MissingInterface | UnexpectedArguments(arguments: seq<string>) | NoInterfaceOption

  // ---------------------------------------------------------------------------------------------
  // path.Base
  // ---------------------------------------------------------------------------------------------

  function TrimSlashes(path: string): string {
    if path != "" && path[|path| - 1] == '/' then TrimSlashes(path[..|path| - 1]) else path
  }

  function AfterLastSlash(path: string): string {
    if path == "" then ""
    else if path[|path| - 1] == '/' then ""
    else AfterLastSlash(path[..|path| - 1]) + [path[|path| - 1]]
  }

  function Base(path: string): string {
    if path == "" then "."
    else
      var name := AfterLastSlash(TrimSlashes(path));
      if name == "" then "/" else name
  }

  // ---------------------------------------------------------------------------------------------
  // What a command line means
  // ---------------------------------------------------------------------------------------------

  const INTERFACE_PREFIX := "--interface="

  /** What follows a prefix (strings.CutPrefix). */
  function CutPrefix(text: string, prefix: string): Option<string> {
    if prefix <= text then Some(text[|prefix|..]) else None
  }

  /** The short options of tcpdump that take an argument. */
  const ARGUMENT_OPTIONS := "BcCEFGijmMQrsTVwWyzZ"

  predicate TakesArgument(c: char) {
    c in ARGUMENT_OPTIONS
  }

  /** The options of tcpdump that are followed by a number, a file, an interface or another value. */
  predicate NeedsValue(c: char) {
    || c == 'B' || c == 'c' || c == 'C' || c == 'E' || c == 'F' || c == 'G'
    || c == 'i' || c == 'j' || c == 'm' || c == 'M'
    || c == 'Q' || c == 'r' || c == 's' || c == 'T' || c == 'V' || c == 'w'
    || c == 'W' || c == 'y' || c == 'z' || c == 'Z'
  }

  lemma OptionsTakeArguments(c: char)
    ensures TakesArgument(c) <==> NeedsValue(c)
  {
  }

  lemma AllOptionsTakeArguments()
    ensures forall c :: TakesArgument(c) <==> NeedsValue(c)
    ensures NeedsValue('i') && !NeedsValue('-')
  {
    forall c ensures TakesArgument(c) <==> NeedsValue(c) {
      OptionsTakeArguments(c);
    }
  }

  /** A minus before the flags would make the group a long option. */
  ghost predicate AreFlags(flags: string) {
    && (flags != "" ==> flags[0] != '-')
    && forall k | 0 <= k < |flags| :: !NeedsValue(flags[k])
  }

  /** What may come before the interface. An option with an argument can follow flags in one group, and its
      argument can be attached to the group or be the next word. */
  datatype Token =
    | Plain(flags: string)
    | Attached(flags: string, option: char, value: string)
    | Separate(flags: string, option: char, value: string)
    | Long(word: string)
    | Word(word: string)

  ghost predicate IsToken(token: Token) {
    match token
    case Plain(flags) => flags != "" && AreFlags(flags)
    case Attached(flags, option, value) => AreFlags(flags) && NeedsValue(option) && option != 'i' && value != ""
    case Separate(flags, option, value) => AreFlags(flags) && NeedsValue(option) && (option != 'i' || value == "")
    case Long(word) => "--" <= word && word != "--interface" && !("--interface=" <= word)
    case Word(word) => word == "-" || !("-" <= word)
  }

  function Spelled(token: Token): seq<string> {
    match token
    case Plain(flags) => ["-" + flags]
    case Attached(flags, option, value) => ["-" + flags + [option] + value]
    case Separate(flags, option, value) => ["-" + flags + [option], value]
    case Long(word) => [word]
    case Word(word) => [word]
  }

  /** The spellings of the interface option. */
  datatype InterfaceOption =
    | LongAttached(name: string)
    | LongSeparate(name: string)
    | ShortAttached(flags: string, name: string)
    | ShortSeparate(flags: string, name: string)

  ghost predicate IsInterfaceOption(option: InterfaceOption) {
    match option
    case LongAttached(name) => name != ""
    case LongSeparate(_) => true
    case ShortAttached(flags, name) => AreFlags(flags) && name != ""
    case ShortSeparate(flags, name) => AreFlags(flags) && name != ""
  }

  function SpelledInterface(option: InterfaceOption): seq<string> {
    match option
    case LongAttached(name) => ["--interface=" + name]
    case LongSeparate(name) => ["--interface", name]
    case ShortAttached(flags, name) => ["-" + flags + ['i'] + name]
    case ShortSeparate(flags, name) => ["-" + flags + ['i'], name]
  }

  function SpelledAll(tokens: seq<Token>): seq<string> {
    if tokens == [] then [] else Spelled(tokens[0]) + SpelledAll(tokens[1..])
  }

  /** Words that begin with any number of tokens and an interface option, which are followed by anything. */
  ghost predicate NamesInterface(words: seq<string>, name: string) {
    exists tokens: seq<Token>, option: InterfaceOption, rest: seq<string> ::
      Decomposes(words, tokens, option, rest) && option.name == name
  }

  ghost predicate Decomposes(words: seq<string>, tokens: seq<Token>, option: InterfaceOption, rest: seq<string>) {
    && (forall token | token in tokens :: IsToken(token)) && IsInterfaceOption(option)
    && words == SpelledAll(tokens) + SpelledInterface(option) + rest
  }

  // ---------------------------------------------------------------------------------------------
  // What the parser computes
  // ---------------------------------------------------------------------------------------------

  /** The place of the first option of a group that takes an argument, or the end of the group. */
  function ArgumentOption(arg: string, from: nat): (j: nat)
    requires from <= |arg|
    ensures from <= j <= |arg|
    decreases |arg| - from
  {
    if from == |arg| || TakesArgument(arg[from]) then from else ArgumentOption(arg, from + 1)
  }

  predicate IsGroup(arg: string) {
    "-" <= arg && !("--" <= arg) && arg != "-"
  }

  /** The interface a group of short options names, if any, and the last word the group extends to. An option
      that takes an argument consumes the rest of the group, or the next word if it is the last one. */
  function Group(args: seq<string>, i: nat): (r: (Option<string>, nat))
    requires i < |args| && args[i] != ""
    ensures i <= r.1 < |args|
  {
    var arg := args[i];
    var j := ArgumentOption(arg, 1);
    if j == |arg| then (None, i)
    else
      var last := if j + 1 == |arg| && i + 1 < |args| then i + 1 else i;
      var value := if last == i then arg[j + 1..] else args[last];
      (if arg[j] == 'i' && value != "" then Some(value) else None, last)
  }

  function Scan(args: seq<string>, i: nat): Result<string, ParseError>
    requires i <= |args|
    decreases |args| - i
  {
    if i == |args| then Failure(NoInterfaceOption)
    else
      var arg := args[i];
      if CutPrefix(arg, INTERFACE_PREFIX).Some? then
        var value := CutPrefix(arg, INTERFACE_PREFIX).value;
        if value == "" then Failure(NoInterfaceOption) else Success(value)
      else if arg == "--interface" then
        if i + 1 < |args| then Success(args[i + 1]) else Failure(NoInterfaceOption)
      else if !IsGroup(arg) then Scan(args, i + 1)
      else
        var (name, last) := Group(args, i);
        if name.Some? then Success(name.value) else Scan(args, last + 1)
  }

  function Parse(args: seq<string>): Result<string, ParseError> {
    var command := if args != [] && args[0] == "sudo" then args[1..] else args;
    if command == [] then Failure(MissingInterface)
    else if Base(command[0]) != "tcpdump" then
      if |command| > 1 then Failure(UnexpectedArguments(command[1..])) else Success(command[0])
    else Scan(command, 1)
  }

  /** Two nested loops, over the words after the program and over the options of a group. */
  method ParseOptions(args: seq<string>) returns (result: Result<string, ParseError>)
    requires args != []
    ensures result == Scan(args, 1)
  {
    var i := 1;
    while i < |args|
      invariant 1 <= i <= |args|
      invariant Scan(args, i) == Scan(args, 1)
      decreases |args| - i
    {
      var arg := args[i];
      var cut := CutPrefix(arg, INTERFACE_PREFIX);
      if cut.Some? {
        if cut.value == "" {
          break;
        }
        return Success(cut.value);
      }
      if arg == "--interface" {
        if i + 1 < |args| {
          return Success(args[i + 1]);
        }
        break;
      }
      if !IsGroup(arg) {
        i := i + 1;
        continue;
      }

      ghost var start := i;
      var j := 1;
      while j < |arg|
        invariant 1 <= j <= |arg| && i == start
        invariant ArgumentOption(arg, j) == ArgumentOption(arg, 1)
      {
        var option := arg[j];
        if !TakesArgument(option) {
          j := j + 1;
          continue;
        }
        var value := arg[j + 1..];
        if value == "" && i + 1 < |args| {
          i := i + 1;
          value := args[i];
        }
        if option == 'i' && value != "" {
          assert Group(args, start) == (Some(value), i);
          return Success(value);
        }
        break;
      }
      assert Group(args, start) == (None, i);
      i := i + 1;
    }
    return Failure(NoInterfaceOption);
  }

  method ParseCaptureCommand(arguments: seq<string>) returns (result: Result<string, ParseError>)
    ensures result == Parse(arguments)
  {
    var args := arguments;
    if |args| > 0 && args[0] == "sudo" {
      args := args[1..];
    }
    if |args| == 0 {
      return Failure(MissingInterface);
    }
    if Base(args[0]) != "tcpdump" {
      if |args| > 1 {
        return Failure(UnexpectedArguments(args[1..]));
      }
      return Success(args[0]);
    }
    result := ParseOptions(args);
  }

  // ---------------------------------------------------------------------------------------------
  // The parser finds the interface
  // ---------------------------------------------------------------------------------------------

  lemma {:induction false} FlagsAreSkipped(arg: string, from: nat, j: nat)
    requires from <= j <= |arg|
    requires (forall k | from <= k < j :: !TakesArgument(arg[k])) && (j < |arg| ==> TakesArgument(arg[j]))
    ensures ArgumentOption(arg, from) == j
    decreases j - from
  {
    if from < j {
      FlagsAreSkipped(arg, from + 1, j);
    }
  }

  lemma {:induction false} SkippedAreFlags(arg: string, from: nat)
    requires from <= |arg|
    ensures var j := ArgumentOption(arg, from);
            (forall k | from <= k < j :: !TakesArgument(arg[k])) && (j < |arg| ==> TakesArgument(arg[j]))
    decreases |arg| - from
  {
    if from < |arg| && !TakesArgument(arg[from]) {
      SkippedAreFlags(arg, from + 1);
    }
  }

  /** A group of flags, and maybe an option with an argument. */
  lemma GroupSplits(flags: string, option: char, value: string)
    requires AreFlags(flags) && TakesArgument(option)
    ensures var arg := "-" + flags + [option] + value;
            && IsGroup(arg) && ArgumentOption(arg, 1) == |flags| + 1 < |arg|
            && arg[|flags| + 1] == option && arg[|flags| + 2..] == value
  {
    hide TakesArgument, NeedsValue, ARGUMENT_OPTIONS;
    AllOptionsTakeArguments();
    var arg := "-" + flags + [option] + value;
    assert !TakesArgument('-');
    assert arg[1] == if flags == "" then option else flags[0];
    forall k | 1 <= k < |flags| + 1 ensures !TakesArgument(arg[k]) {
      assert arg[k] == flags[k - 1];
    }
    FlagsAreSkipped(arg, 1, |flags| + 1);
  }

  lemma FlagsSplit(flags: string)
    requires AreFlags(flags) && flags != ""
    ensures IsGroup("-" + flags) && ArgumentOption("-" + flags, 1) == |flags| + 1
  {
    hide TakesArgument, NeedsValue, ARGUMENT_OPTIONS;
    AllOptionsTakeArguments();
    var arg := "-" + flags;
    assert arg[1] == flags[0];
    forall k | 1 <= k < |arg| ensures !TakesArgument(arg[k]) {
      assert arg[k] == flags[k - 1];
    }
    FlagsAreSkipped(arg, 1, |arg|);
  }

  lemma GroupIsNotLong(arg: string)
    requires IsGroup(arg) || (arg != "" && arg[0] != '-') || arg == "" || arg == "-"
    ensures CutPrefix(arg, INTERFACE_PREFIX).None? && arg != "--interface"
  {
    assert INTERFACE_PREFIX[0] == '-' && INTERFACE_PREFIX[1] == '-';
  }

  lemma TokenIsSkipped(args: seq<string>, i: nat, token: Token)
    requires IsToken(token) && i + |Spelled(token)| <= |args| && args[i..i + |Spelled(token)|] == Spelled(token)
    ensures Scan(args, i) == Scan(args, i + |Spelled(token)|)
  {
    hide TakesArgument, NeedsValue, ARGUMENT_OPTIONS;
    AllOptionsTakeArguments();
    assert args[i] == Spelled(token)[0];
    match token
    case Plain(flags) =>
      FlagsSplit(flags);
      GroupIsNotLong(args[i]);
    case Attached(flags, option, value) =>
      GroupSplits(flags, option, value);
      GroupIsNotLong(args[i]);
    case Separate(flags, option, value) =>
      assert args[i + 1] == Spelled(token)[1];
      GroupSplits(flags, option, "");
      assert "-" + flags + [option] + "" == "-" + flags + [option];
      GroupIsNotLong(args[i]);
    case Long(word) =>
    case Word(word) =>
      GroupIsNotLong(word);
  }

  lemma InterfaceIsFound(args: seq<string>, i: nat, option: InterfaceOption)
    requires IsInterfaceOption(option)
    requires i + |SpelledInterface(option)| <= |args|
    requires args[i..i + |SpelledInterface(option)|] == SpelledInterface(option)
    ensures Scan(args, i) == Success(option.name)
  {
    hide TakesArgument, NeedsValue, ARGUMENT_OPTIONS;
    AllOptionsTakeArguments();
    assert args[i] == SpelledInterface(option)[0];
    assert TakesArgument('i');
    match option
    case LongAttached(name) =>
      assert args[i][|INTERFACE_PREFIX|..] == name;
    case LongSeparate(name) =>
      assert args[i + 1] == SpelledInterface(option)[1];
    case ShortAttached(flags, name) =>
      GroupSplits(flags, 'i', name);
      GroupIsNotLong(args[i]);
    case ShortSeparate(flags, name) =>
      assert args[i + 1] == SpelledInterface(option)[1];
      GroupSplits(flags, 'i', "");
      assert "-" + flags + ['i'] + "" == "-" + flags + ['i'];
      GroupIsNotLong(args[i]);
  }

  lemma StartsWith<T>(args: seq<T>, i: nat, first: seq<T>, rest: seq<T>)
    requires i <= |args| && args[i..] == first + rest
    ensures i + |first| <= |args| && args[i..i + |first|] == first && args[i + |first|..] == rest
  {
    assert |args[i..]| == |first| + |rest|;
    assert args[i..i + |first|] == args[i..][..|first|] && args[i + |first|..] == args[i..][|first|..];
  }

  lemma FirstToken(words: seq<string>, tokens: seq<Token>, option: InterfaceOption, rest: seq<string>)
    returns (later: seq<string>)
    requires Decomposes(words, tokens, option, rest) && tokens != []
    ensures IsToken(tokens[0]) && words == Spelled(tokens[0]) + later
    ensures Decomposes(later, tokens[1..], option, rest)
  {
    later := SpelledAll(tokens[1..]) + SpelledInterface(option) + rest;
  }

  lemma InterfaceComesFirst(words: seq<string>, option: InterfaceOption, rest: seq<string>)
    requires Decomposes(words, [], option, rest)
    ensures IsInterfaceOption(option) && words == SpelledInterface(option) + rest
  {
    assert [] + SpelledInterface(option) + rest == SpelledInterface(option) + rest;
  }

  lemma {:induction false} TokensAreSkipped(args: seq<string>, i: nat, tokens: seq<Token>, option: InterfaceOption,
                                            rest: seq<string>)
    requires i <= |args| && Decomposes(args[i..], tokens, option, rest)
    ensures Scan(args, i) == Success(option.name)
    decreases |tokens|
  {
    hide IsToken, IsInterfaceOption, Scan, Decomposes, Spelled, SpelledInterface;
    if tokens == [] {
      InterfaceComesFirst(args[i..], option, rest);
      StartsWith(args, i, SpelledInterface(option), rest);
      InterfaceIsFound(args, i, option);
    } else {
      var later := FirstToken(args[i..], tokens, option, rest);
      StartsWith(args, i, Spelled(tokens[0]), later);
      TokenIsSkipped(args, i, tokens[0]);
      TokensAreSkipped(args, i + |Spelled(tokens[0])|, tokens[1..], option, rest);
    }
  }

  lemma {:induction false} ArgumentOptionTakesOne(arg: string, from: nat)
    requires from <= |arg|
    ensures ArgumentOption(arg, from) < |arg| ==> TakesArgument(arg[ArgumentOption(arg, from)])
    decreases |arg| - from
  {
    if from < |arg| && !TakesArgument(arg[from]) {
      ArgumentOptionTakesOne(arg, from + 1);
    }
  }

  /** A group is a dash, flags, and, unless the flags are all of it, an option and its value. */
  lemma GroupIsSplit(arg: string, j: nat)
    requires IsGroup(arg) && 1 <= j <= |arg|
    ensures j == |arg| ==> arg == "-" + arg[1..j] && arg[1..j] != ""
    ensures j < |arg| ==> arg == "-" + arg[1..j] + [arg[j]] + arg[j + 1..]
    ensures j + 1 == |arg| ==> arg == "-" + arg[1..j] + [arg[j]]
  {
  }

  lemma SkippedGroup(args: seq<string>, i: nat) returns (token: Token)
    requires i < |args| && IsGroup(args[i]) && Group(args, i).0.None? && Group(args, i).1 + 1 < |args|
    ensures IsToken(token) && i + |Spelled(token)| == Group(args, i).1 + 1
    ensures args[i..i + |Spelled(token)|] == Spelled(token)
  {
    hide TakesArgument, NeedsValue, ARGUMENT_OPTIONS;
    AllOptionsTakeArguments();
    hide Scan, ArgumentOption;
    var arg := args[i];
    var j := ArgumentOption(arg, 1);
    SkippedAreFlags(arg, 1);
    ArgumentOptionTakesOne(arg, 1);
    GroupIsSplit(arg, j);
    var flags := arg[1..j];
    if j == |arg| {
      token := Plain(flags);
    } else if j + 1 == |arg| {
      token := Separate(flags, arg[j], args[i + 1]);
    } else {
      token := Attached(flags, arg[j], arg[j + 1..]);
    }
  }

  /** The token of a word, or of two, that the parser skips. */
  lemma SkippedToken(args: seq<string>, i: nat) returns (token: Token)
    requires i < |args| && CutPrefix(args[i], INTERFACE_PREFIX).None? && args[i] != "--interface"
    requires IsGroup(args[i]) ==> Group(args, i).0.None? && Group(args, i).1 + 1 < |args|
    ensures IsToken(token)
    ensures i + |Spelled(token)| == (if IsGroup(args[i]) then Group(args, i).1 + 1 else i + 1)
    ensures args[i..i + |Spelled(token)|] == Spelled(token)
  {
    if IsGroup(args[i]) {
      token := SkippedGroup(args, i);
    } else {
      token := if "--" <= args[i] then Long(args[i]) else Word(args[i]);
    }
  }

  lemma FoundInterface(args: seq<string>, i: nat) returns (option: InterfaceOption)
    requires i < |args| && IsGroup(args[i]) && Group(args, i).0.Some?
    ensures IsInterfaceOption(option) && option.name == Group(args, i).0.value
    ensures i + |SpelledInterface(option)| == Group(args, i).1 + 1
    ensures args[i..i + |SpelledInterface(option)|] == SpelledInterface(option)
  {
    hide TakesArgument, NeedsValue, ARGUMENT_OPTIONS;
    AllOptionsTakeArguments();
    var arg := args[i];
    var j := ArgumentOption(arg, 1);
    SkippedAreFlags(arg, 1);
    var flags := arg[1..j];
    if j + 1 == |arg| {
      option := ShortSeparate(flags, args[i + 1]);
      assert arg == "-" + flags + ['i'];
    } else {
      option := ShortAttached(flags, arg[j + 1..]);
      assert arg == "-" + flags + ['i'] + arg[j + 1..];
    }
  }

  lemma LongInterface(args: seq<string>, i: nat) returns (option: InterfaceOption)
    requires i < |args| && Scan(args, i).Success?
    requires CutPrefix(args[i], INTERFACE_PREFIX).Some? || args[i] == "--interface"
    ensures IsInterfaceOption(option) && Scan(args, i) == Success(option.name)
    ensures i + |SpelledInterface(option)| <= |args|
    ensures args[i..i + |SpelledInterface(option)|] == SpelledInterface(option)
  {
    var cut := CutPrefix(args[i], INTERFACE_PREFIX);
    if cut.Some? {
      option := LongAttached(cut.value);
      assert args[i] == INTERFACE_PREFIX + cut.value;
    } else {
      option := LongSeparate(args[i + 1]);
    }
  }

  lemma OptionComesFirst(args: seq<string>, i: nat, option: InterfaceOption)
    requires IsInterfaceOption(option) && i + |SpelledInterface(option)| <= |args|
    requires args[i..i + |SpelledInterface(option)|] == SpelledInterface(option)
    ensures Decomposes(args[i..], [], option, args[i + |SpelledInterface(option)|..])
  {
    var (spelled, rest) := (SpelledInterface(option), args[i + |SpelledInterface(option)|..]);
    assert args[i..] == args[i..i + |spelled|] + rest;
    assert [] + spelled + rest == spelled + rest;
  }

  lemma TokenComesFirst(args: seq<string>, i: nat, token: Token, later: seq<Token>, option: InterfaceOption,
                        rest: seq<string>)
    requires IsToken(token) && i + |Spelled(token)| <= |args| && args[i..i + |Spelled(token)|] == Spelled(token)
    requires Decomposes(args[i + |Spelled(token)|..], later, option, rest)
    ensures Decomposes(args[i..], [token] + later, option, rest)
  {
    var (first, middle, last) := (Spelled(token), SpelledAll(later), SpelledInterface(option));
    assert ([token] + later)[1..] == later;
    assert args[i..] == args[i..i + |first|] + args[i + |first|..];
    assert first + (middle + last + rest) == first + middle + last + rest;
  }

  /** How a command line that the parser finds an interface in is made up. */
  lemma {:induction false} FoundInCommand(args: seq<string>, i: nat)
    returns (tokens: seq<Token>, option: InterfaceOption, rest: seq<string>)
    requires i <= |args| && Scan(args, i).Success?
    ensures Decomposes(args[i..], tokens, option, rest) && Scan(args, i) == Success(option.name)
    decreases |args| - i
  {
    hide Decomposes, IsToken, IsInterfaceOption, Spelled, SpelledInterface, Group, CutPrefix;
    if CutPrefix(args[i], INTERFACE_PREFIX).Some? || args[i] == "--interface" {
      option := LongInterface(args, i);
      OptionComesFirst(args, i, option);
      tokens, rest := [], args[i + |SpelledInterface(option)|..];
    } else if IsGroup(args[i]) && Group(args, i).0.Some? {
      option := FoundInterface(args, i);
      OptionComesFirst(args, i, option);
      tokens, rest := [], args[i + |SpelledInterface(option)|..];
    } else {
      var token := SkippedToken(args, i);
      TokenIsSkipped(args, i, token);
      var later;
      later, option, rest := FoundInCommand(args, i + |Spelled(token)|);
      TokenComesFirst(args, i, token, later, option, rest);
      tokens := [token] + later;
    }
  }

  /** The command without sudo in front of it. */
  function WithoutSudo(arguments: seq<string>): seq<string> {
    if arguments != [] && arguments[0] == "sudo" then arguments[1..] else arguments
  }

  // ---------------------------------------------------------------------------------------------
  // The program
  // ---------------------------------------------------------------------------------------------

  /** The path without the slashes at its end, of which there are all from place n on. */
  predicate EndsAt(path: string, n: nat) {
    && n <= |path| && (forall k | n <= k < |path| :: path[k] == '/')
    && (n > 0 ==> path[n - 1] != '/')
  }

  /** The last name of the path. */
  ghost predicate HasName(path: string, name: string) {
    path == name || exists front: string :: path == front + "/" + name
  }

  /** The path is tcpdump, or leads to it, but for slashes at its end. */
  ghost predicate IsTcpdump(path: string) {
    exists n: nat :: EndsAt(path, n) && HasName(path[..n], "tcpdump")
  }

  lemma {:induction false} TrimSlashesMeans(path: string) returns (n: nat)
    ensures EndsAt(path, n) && TrimSlashes(path) == path[..n]
    decreases |path|
  {
    if path != "" && path[|path| - 1] == '/' {
      n := TrimSlashesMeans(path[..|path| - 1]);
      assert path[..|path| - 1][..n] == path[..n];
      forall k | n <= k < |path| ensures path[k] == '/' {
        assert k < |path| - 1 ==> path[..|path| - 1][k] == path[k];
      }
      assert n > 0 ==> path[..|path| - 1][n - 1] == path[n - 1];
    } else {
      n := |path|;
      assert path[..|path|] == path;
    }
  }

  lemma {:induction false} AfterLastSlashMeans(path: string) returns (i: nat)
    ensures i <= |path| && AfterLastSlash(path) == path[i..]
    ensures (forall k | i <= k < |path| :: path[k] != '/') && (i > 0 ==> path[i - 1] == '/')
    decreases |path|
  {
    if path == "" || path[|path| - 1] == '/' {
      i := |path|;
    } else {
      var before := path[..|path| - 1];
      i := AfterLastSlashMeans(before);
      assert before[i..] + [path[|path| - 1]] == path[i..];
      forall k | i <= k < |path| ensures path[k] != '/' {
        assert k < |path| - 1 ==> before[k] == path[k];
      }
      assert i > 0 ==> before[i - 1] == path[i - 1];
    }
  }

  lemma EndsAgree(path: string, n: nat, m: nat)
    requires EndsAt(path, n) && EndsAt(path, m)
    ensures n == m
  {
  }

  lemma {:induction false} NameIsLast(front: string, name: string)
    requires '/' !in name
    ensures AfterLastSlash(name) == name && AfterLastSlash(front + "/" + name) == name
    decreases |name|
  {
    if name == "" {
      assert (front + "/" + name)[|front|] == '/';
    } else {
      var (before, last) := (name[..|name| - 1], name[|name| - 1]);
      NameIsLast(front, before);
      assert name == before + [last];
      assert (front + "/" + name)[..|front| + |name|] == front + "/" + before;
      assert last in name;
    }
  }

  lemma LastNameMeans(path: string, name: string)
    requires '/' !in name
    ensures AfterLastSlash(path) == name <==> HasName(path, name)
  {
    hide AfterLastSlash;
    var i := AfterLastSlashMeans(path);
    if path[i..] == name {
      if i == 0 {
        assert path[0..] == path;
      } else {
        assert path == path[..i - 1] + "/" + name;
      }
    }
    NameIsLast("", name);
    if front: string :| path == front + "/" + name {
      NameIsLast(front, name);
    }
  }

  lemma BaseMeans(path: string)
    ensures Base(path) == "tcpdump" <==> IsTcpdump(path)
  {
    hide TrimSlashes, AfterLastSlash, HasName;
    assert "." != "tcpdump" && "/" != "tcpdump" && "" != "tcpdump" by {
      assert |"."| == 1 && |"/"| == 1 && |"tcpdump"| == 7;
    }
    var n := TrimSlashesMeans(path);
    LastNameMeans(path[..n], "tcpdump");
    if path == "" {
      NoName("tcpdump");
      assert path[..0] == "";
    }
    if IsTcpdump(path) {
      var m: nat :| EndsAt(path, m) && HasName(path[..m], "tcpdump");
      EndsAgree(path, n, m);
    }
  }

  lemma NoName(name: string)
    requires name != ""
    ensures !HasName("", name)
  {
    forall front: string ensures "" != front + "/" + name {
      assert |front + "/" + name| > 0;
    }
  }

  /** A name is returned exactly for the interface alone, and for a tcpdump command line whose first interface
      option, in any of its spellings, follows nothing but other options and words. */
  lemma ParserFindsTheInterface(arguments: seq<string>, name: string)
    ensures Parse(arguments) == Success(name)
            <==> var command := WithoutSudo(arguments);
                 command != [] && if IsTcpdump(command[0]) then NamesInterface(command[1..], name)
                                  else command == [name]
  {
    hide Base, IsTcpdump;
    var command := WithoutSudo(arguments);
    if command != [] {
      BaseMeans(command[0]);
    }
    if command != [] && Base(command[0]) == "tcpdump" {
      if Scan(command, 1) == Success(name) {
        var tokens, option, rest := FoundInCommand(command, 1);
      }
      if NamesInterface(command[1..], name) {
        var tokens, option, rest :| Decomposes(command[1..], tokens, option, rest) && option.name == name;
        TokensAreSkipped(command, 1, tokens, option, rest);
      }
    }
  }

  /** Without a name, the error tells why: there is no command, more than the interface, or no interface option. */
  lemma ParserErrorsMean(arguments: seq<string>)
    ensures var command := WithoutSudo(arguments);
            Parse(arguments).Failure? ==>
              Parse(arguments).error ==
                if command == [] then MissingInterface
                else if IsTcpdump(command[0]) then NoInterfaceOption
                else UnexpectedArguments(command[1..])
    ensures var command := WithoutSudo(arguments);
            Parse(arguments).Failure? <==>
              || command == []
              || (if IsTcpdump(command[0]) then !(exists name :: NamesInterface(command[1..], name)) else |command| > 1)
  {
    hide Base, IsTcpdump, NamesInterface;
    var command := WithoutSudo(arguments);
    if command != [] {
      BaseMeans(command[0]);
      if IsTcpdump(command[0]) {
        ScanFails(command, 1);
        if Parse(arguments).Success? {
          ParserFindsTheInterface(arguments, Parse(arguments).value);
        }
        if name :| NamesInterface(command[1..], name) {
          ParserFindsTheInterface(arguments, name);
        }
      }
    }
  }

  lemma {:induction false} ScanFails(args: seq<string>, i: nat)
    requires i <= |args|
    ensures Scan(args, i).Failure? ==> Scan(args, i).error == NoInterfaceOption
    decreases |args| - i
  {
    hide Group;
    if i < |args| {
      ScanFails(args, i + 1);
      if IsGroup(args[i]) {
        ScanFails(args, Group(args, i).1 + 1);
      }
    }
  }
}
