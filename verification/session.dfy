/** The interactive session: the state record of the terminal UI and its step
    function over key presses, window resizes, spinner ticks and the outcome
    of a stream. Each Bubble Tea command the step returns is reduced to an
    effect tag; rendering is not modelled. */
module Session {
  import opened Wrappers
  import opened Text
  import opened Chat
  import Config
  import Wire

  // ---------------------------------------------------------------------
  // Commands and constants

  datatype CommandAction = SwitchProvider | SwitchModel | ClearChat | Help | ShowConfig | Exit

  datatype Command = Command(name: string, description: string, action: CommandAction)

  /** getCommands, in palette order. */
  function Commands(): seq<Command> {
    [ Command("/provider", "Switch AI provider", SwitchProvider),
      Command("/model", "Switch AI model", SwitchModel),
      Command("/clear", "Clear chat history", ClearChat),
      Command("/help", "Show help", Help),
      Command("/config", "Configure API keys", ShowConfig),
      Command("/exit", "Exit Nexly", Exit) ]
  }

  /** The ten braille frames of the spinner. */
  const SpinnerFrames: seq<string> := [
    "\U{280B}", "\U{2819}", "\U{2839}", "\U{2838}", "\U{283C}",
    "\U{2834}", "\U{2826}", "\U{2827}", "\U{2807}", "\U{280F}"
  ]

  /** The help reply, line by line. */
  function HelpText(): string {
    Terminated([
      "",
      "Nexly - AI Coding Assistant",
      "============================",
      "",
      "Commands:",
      "  /provider    - Switch AI provider",
      "  /model      - Switch AI model",
      "  /clear      - Clear chat history",
      "  /config     - Configure API keys",
      "  /help       - Show this help",
      "  /exit       - Exit Nexly",
      "",
      "Keyboard Shortcuts:",
      "  Ctrl+P      - Open command palette",
      "  Ctrl+C      - Exit Nexly",
      "  Ctrl+U      - Clear input"])
  }

  /** The configuration reply, line by line. */
  function ConfigText(): string {
    Terminated([
      "",
      "Nexly Configuration",
      "====================",
      "",
      "To set API keys, edit ~/.nexly/config.json:",
      "",
      "{",
      "  \"provider\": \"openai\",",
      "  \"model\": \"gpt-4\",",
      "  \"api_keys\": {",
      "    \"openai\": \"sk-...\",",
      "    \"anthropic\": \"sk-ant-...\",",
      "    \"google\": \"AIza...\",",
      "    \"openrouter\": \"sk-or-...\",",
      "    \"nvidia\": \"nvapi-...\"",
      "  }",
      "}",
      "",
      "Available providers: openai, anthropic, google, openrouter, nvidia"])
  }

  const ClearedText := "Chat history cleared."

  /** The system message of every exchange. */
  function SystemPrompt(): string {
    Join([
      "You are Nexly, a helpful AI coding assistant. You can read, write, and edit files. ",
      "When asked to edit files, provide the complete updated file content. ",
      "Be concise and helpful. Always provide code in markdown code blocks."], "\n")
  }

  function ProvidersText(): string {
    "Available providers:\n" + Join(Config.Providers, "\n")
    + "\n\nUse 'nexly provider set <provider>' to switch."
  }

  function ModelsText(provider: string): string {
    "Available models for " + provider + ":\n" + Join(Config.Models(provider), "\n")
    + "\n\nUse 'nexly model set <model>' to switch."
  }

  // ---------------------------------------------------------------------
  // State, events, effects

  datatype State = State(
    messages: seq<Message>,
    input: string,
    provider: string,
    model: string,
    streaming: bool,
    spinner: bool,
    spinnerFrame: nat,
    width: int,
    height: int,
    commandView: bool,
    selectedCmd: nat,
    commandInput: string,
    errMsg: string)

  /** The model Run starts from: an empty conversation in chat mode, not
      streaming, with the selection and the spinner frame in range. */
  function Initial(provider: string, model: string): (s: State)
    ensures Valid(s) && !s.streaming && !s.commandView
    ensures s.messages == [] && s.input == ""
    ensures s.provider == provider && s.model == model
  {
    State([], "", provider, model, false, false, 0, 0, 0, false, 0, "", "")
  }

  /** The key names Update and updateCommandPalette compare the key's
      printed form against; every other key is Other, carrying that form.
      Escape stands for the literal name "escape" the palette tests for. */
  datatype KeyName = Enter | Escape | Backspace | CtrlC | CtrlP | CtrlU | Up | Down | Other(name: string)

  /** The printed form each name stands for: the literal the code compares
      against. */
  function KeyString(n: KeyName): string {
    match n
    case Enter => "enter"
    case Escape => "escape"
    case Backspace => "backspace"
    case CtrlC => "ctrl+c"
    case CtrlP => "ctrl+p"
    case CtrlU => "ctrl+u"
    case Up => "up"
    case Down => "down"
    case Other(name) => name
  }

  /** The comparisons against the printed form, as one classification. */
  function NameOf(printed: string): (n: KeyName)
    ensures KeyString(n) == printed
    ensures n.Other? <==> printed !in {"enter", "escape", "backspace", "ctrl+c", "ctrl+p", "ctrl+u", "up", "down"}
  {
    match printed
    case "enter" => Enter
    case "escape" => Escape
    case "backspace" => Backspace
    case "ctrl+c" => CtrlC
    case "ctrl+p" => CtrlP
    case "ctrl+u" => CtrlU
    case "up" => Up
    case "down" => Down
    case _ => Other(printed)
  }

  /** The classification the palette evidently intends: Bubble Tea prints the
      Esc key as "esc", and that is the escape key; every other printed form
      is classified as NameOf does. */
  function IntendedNameOf(printed: string): (n: KeyName)
    ensures n == Escape <==> printed in {"esc", "escape"}
    ensures n.Other? <==> printed !in {"enter", "esc", "escape", "backspace", "ctrl+c", "ctrl+p", "ctrl+u", "up", "down"}
  {
    if printed == "esc" then Escape else NameOf(printed)
  }

  /** A key press: the classified name and the typed runes (None for a
      special key). */
  datatype KeyPress = KeyPress(name: KeyName, runes: Option<string>)

  /** A special key, without runes. */
  function Press(n: KeyName): KeyPress {
    KeyPress(n, None)
  }

  datatype Event =
    | Resize(width: int, height: int)
    | Key(key: KeyPress)
    | Tick
    | StreamComplete
    | StreamError(text: string)

  /** What the returned tea.Cmd asks the runtime to do. */
  datatype Effect = NoEffect | Quit | StartStream(userInput: string)

  datatype Step = Step(state: State, effect: Effect)

  /** The selection index and the spinner frame are in range. */
  predicate Valid(s: State) {
    s.selectedCmd < |Commands()| && s.spinnerFrame < |SpinnerFrames|
  }

  /** How a step may change the conversation: keep it, append one message,
      or (for /clear) replace it with the confirmation. */
  predicate Grows(before: seq<Message>, after: seq<Message>) {
    || after == before
    || (|after| == |before| + 1 && after[..|before|] == before)
    || after == [Message("assistant", ClearedText)]
  }

  // ---------------------------------------------------------------------
  // Command actions

  function AppendAssistant(s: State, text: string): State {
    s.(messages := s.messages + [Message("assistant", text)])
  }

  /** switchProviderCmd ... exitCmd. Every action but exit closes the palette
      and clears its filter; none touches the input buffer. */
  function RunAction(s: State, a: CommandAction): (r: Step)
    ensures r.state.input == s.input && r.state.streaming == s.streaming
    ensures r.state.selectedCmd == s.selectedCmd && r.state.spinnerFrame == s.spinnerFrame
    ensures !r.effect.StartStream?
    ensures r.state.provider == s.provider && r.state.model == s.model
    ensures a != Exit ==> r.effect == NoEffect && !r.state.commandView && r.state.commandInput == ""
    ensures a == Exit ==> r == Step(s, Quit)
    ensures a == ClearChat ==> r.state.messages == [Message("assistant", ClearedText)]
    ensures a != ClearChat && a != Exit ==>
      |r.state.messages| == |s.messages| + 1 && r.state.messages[..|s.messages|] == s.messages
      && r.state.messages[|s.messages|].role == "assistant"
  {
    var closed := s.(commandView := false, commandInput := "");
    if a == Exit then Step(s, Quit)
    else if a == ClearChat then Step(closed.(messages := [Message("assistant", ClearedText)]), NoEffect)
    else Step(AppendAssistant(closed, ActionReply(s, a)), NoEffect)
  }

  /** The assistant message an informational action adds. */
  function ActionReply(s: State, a: CommandAction): string {
    match a
    case SwitchProvider => ProvidersText()
    case SwitchModel => ModelsText(s.provider)
    case Help => HelpText()
    case ShowConfig => ConfigText()
    case _ => ""
  }

  /** The first command whose name is exactly `name`, from index i on. */
  function FindCommand(name: string, i: nat := 0): (r: Option<nat>)
    requires i <= |Commands()|
    ensures r.Some? ==> i <= r.value < |Commands()| && Commands()[r.value].name == name
    ensures r.None? ==> forall j :: i <= j < |Commands()| ==> Commands()[j].name != name
    decreases |Commands()| - i
  {
    if i == |Commands()| then None
    else if Commands()[i].name == name then Some(i)
    else FindCommand(name, i + 1)
  }

  /** handleCommand: an exact name runs its action; anything else is
      answered with "Unknown command" and clears the input. */
  function HandleCommand(s: State, input: string): (r: Step)
    ensures r.state.selectedCmd == s.selectedCmd && r.state.spinnerFrame == s.spinnerFrame
    ensures r.state.streaming == s.streaming && !r.effect.StartStream?
    ensures Grows(s.messages, r.state.messages)
  {
    match FindCommand(input)
    case Some(i) => RunAction(s, Commands()[i].action)
    case None =>
      Step(AppendAssistant(s, "Unknown command: " + input).(input := ""), NoEffect)
  }

  /** sendMessage: the input becomes the last message, from the user, and is
      handed to the stream; the input box empties and streaming starts. */
  function SendMessage(s: State): (r: Step)
    ensures |r.state.messages| == |s.messages| + 1 && r.state.messages[..|s.messages|] == s.messages
    ensures r.state.messages[|s.messages|] == Message("user", s.input)
    ensures r.effect == StartStream(s.input) && r.state.input == "" && r.state.streaming
  {
    var next := s.(messages := s.messages + [Message("user", s.input)], input := "",
                   streaming := true, spinner := true);
    Step(next, StartStream(s.input))
  }

  // ---------------------------------------------------------------------
  // The palette

  /** A command matches the filter when its lower-cased name contains the
      lower-cased filter. */
  predicate Matches(i: nat, filter: string)
    requires i < |Commands()|
  {
    Contains(ToLower(Commands()[i].name), ToLower(filter))
  }

  /** The loop of the palette's rune branch: the first matching index from i on. */
  function FirstMatch(filter: string, i: nat := 0): (r: Option<nat>)
    requires i <= |Commands()|
    ensures r.Some? ==> i <= r.value < |Commands()| && Matches(r.value, filter)
    ensures r.Some? ==> forall j :: i <= j < r.value ==> !Matches(j, filter)
    ensures r.None? ==> forall j :: i <= j < |Commands()| ==> !Matches(j, filter)
    decreases |Commands()| - i
  {
    if i == |Commands()| then None
    else if Matches(i, filter) then Some(i)
    else FirstMatch(filter, i + 1)
  }

  /** The palette's rune branch: the typed runes extend the filter and the
      selection moves to the first command (of the unfiltered list) that
      matches it, or stays where it was when none does. */
  function Filter(s: State, typed: string): (r: State)
    ensures r.commandInput == s.commandInput + typed
    ensures (forall j :: 0 <= j < |Commands()| ==> !Matches(j, r.commandInput)) ==> r.selectedCmd == s.selectedCmd
    ensures forall i :: (&& 0 <= i < |Commands()| && Matches(i, r.commandInput)
                         && forall j :: 0 <= j < i ==> !Matches(j, r.commandInput)) ==> r.selectedCmd == i
    ensures s.selectedCmd < |Commands()| ==> r.selectedCmd < |Commands()|
    ensures r.(commandInput := s.commandInput, selectedCmd := s.selectedCmd) == s
  {
    var filter := s.commandInput + typed;
    var m := FirstMatch(filter);
    assert forall i :: (&& 0 <= i < |Commands()| && Matches(i, filter)
                        && forall j :: 0 <= j < i ==> !Matches(j, filter)) ==> m == Some(i);
    s.(commandInput := filter, selectedCmd := m.GetOr(s.selectedCmd))
  }

  /** updateCommandPalette */
  function UpdatePalette(s: State, k: KeyPress): Step {
    if k.name == Escape then
      Step(s.(commandView := false, commandInput := ""), NoEffect)
    else if k.name == Enter && s.selectedCmd < |Commands()| then
      RunAction(s, Commands()[s.selectedCmd].action)
    else if k.name == Up && s.selectedCmd > 0 then
      Step(s.(selectedCmd := s.selectedCmd - 1), NoEffect)
    else if k.name == Down && s.selectedCmd < |Commands()| - 1 then
      Step(s.(selectedCmd := s.selectedCmd + 1), NoEffect)
    else if k.name == Backspace && |s.commandInput| > 0 then
      Step(s.(commandInput := s.commandInput[..|s.commandInput| - 1]), NoEffect)
    else if k.runes.Some? then
      Step(Filter(s, k.runes.value), NoEffect)
    else
      Step(s, NoEffect)
  }

  // ---------------------------------------------------------------------
  // The step function

  /** The chat-mode branch of Update's key handling. */
  function ChatKey(s: State, k: KeyPress): (r: Step)
    ensures r.state.spinnerFrame == s.spinnerFrame
    ensures r.state.selectedCmd == s.selectedCmd || r.state.selectedCmd == 0
    ensures Grows(s.messages, r.state.messages)
    ensures r.effect.StartStream? ==>
      && k.name == Enter && !s.streaming
      && r.state.streaming && r.effect.userInput == s.input
  {
    if k.name == CtrlP then
      Step(s.(commandView := true, commandInput := "", selectedCmd := 0), NoEffect)
    else if k.name == CtrlC then Step(s, Quit)
    else if k.name == Enter && !s.streaming then
      if s.input == "" then Step(s, NoEffect)
      else if HasPrefix(s.input, "/") then HandleCommand(s, s.input)
      else SendMessage(s)
    else if k.name == CtrlU then Step(s.(input := ""), NoEffect)
    else if k.name == Backspace && |s.input| > 0 then
      Step(s.(input := s.input[..|s.input| - 1]), NoEffect)
    else if k.runes.Some? then Step(s.(input := s.input + k.runes.value), NoEffect)
    else Step(s, NoEffect)
  }

  /** Update */
  function Update(s: State, e: Event): Step {
    match e
    case Resize(w, h) => Step(s.(width := w, height := h), NoEffect)
    case Key(k) => if s.commandView then UpdatePalette(s, k) else ChatKey(s, k)
    case Tick => Step(s.(spinnerFrame := (s.spinnerFrame + 1) % |SpinnerFrames|), NoEffect)
    case StreamComplete => Step(s.(streaming := false, spinner := false), NoEffect)
    case StreamError(text) => Step(s.(streaming := false, spinner := false, errMsg := text), NoEffect)
  }

  // ---------------------------------------------------------------------
  // The stream outcome

  function UserPrompt(projectContext: string, userInput: string): string {
    "Project context:\n" + projectContext + "\n\nUser: " + userInput
  }

  /** The two messages streamResponse sends: the system prompt, then the
      project context with the user's input. */
  function Conversation(projectContext: string, userInput: string): seq<Message> {
    [Message("system", SystemPrompt()), Message("user", UserPrompt(projectContext, userInput))]
  }

  /** The pure part of streamResponse for a given conversation: the key read
      from the configuration is checked first, then one exchange; its error,
      if any, becomes the error event. */
  function Exchange(provider: string, model: string, apiKey: string, messages: seq<Message>,
                    transport: Wire.Request -> Wire.Reply, extract: string -> Wire.Frame): (e: Event)
    ensures e.StreamComplete? || e.StreamError?
    ensures apiKey == "" ==> e == StreamError("API key not set for provider: " + provider)
    ensures apiKey != "" ==>
      var x := Wire.SendMessage(Wire.NewProvider(provider, apiKey, model), messages, transport, extract);
      && x.request.Some?
      && (e.StreamComplete? <==> x.err.None?)
      && (x.err.Some? ==> e == StreamError(x.err.value))
  {
    if apiKey == "" then StreamError("API key not set for provider: " + provider)
    else Outcome(Wire.SendMessage(Wire.NewProvider(provider, apiKey, model), messages, transport, extract))
  }

  /** streamResponse: the exchange carries the system prompt and the user's
      prompt with the project context. */
  function StreamOutcome(provider: string, model: string, apiKey: string, projectContext: string,
                         userInput: string, transport: Wire.Request -> Wire.Reply,
                         extract: string -> Wire.Frame): Event
  {
    Exchange(provider, model, apiKey, Conversation(projectContext, userInput), transport, extract)
  }

  /** The event an exchange ends in: its error, or completion. */
  function Outcome(x: Wire.Exchange): (e: Event)
    ensures e.StreamComplete? <==> x.err.None?
    ensures e.StreamError? <==> x.err.Some?
    ensures x.err.Some? ==> e == StreamError(x.err.value)
  {
    if x.err.Some? then StreamError(x.err.value) else StreamComplete
  }

  // ---------------------------------------------------------------------
  // Properties

  /** No two commands share a name. */
  lemma CommandNamesDistinct()
    ensures forall i, j :: 0 <= i < j < |Commands()| ==> Commands()[i].name != Commands()[j].name
  {
  }

  /** Every command name starts with a slash, and looking it up finds that
      very command. */
  lemma CommandNames(i: nat)
    requires i < |Commands()|
    ensures HasPrefix(Commands()[i].name, "/")
    ensures FindCommand(Commands()[i].name) == Some(i)
  {
    CommandNamesDistinct();
  }

  /** Enter in chat mode, idle, with a prompt that is not a command: one user
      message holding the prompt is appended, the input is cleared, streaming
      starts and one exchange is requested. */
  lemma SubmitPrompt(s: State)
    requires !s.commandView && !s.streaming && s.input != "" && !HasPrefix(s.input, "/")
    ensures var r := Update(s, Key(Press(Enter)));
      && r.state.messages == s.messages + [Message("user", s.input)]
      && r.state.input == ""
      && r.state.streaming
      && r.effect == StartStream(s.input)
      && r.state.(messages := s.messages, input := s.input, streaming := false, spinner := s.spinner) == s
  {
  }

  /** Enter while streaming, or with an empty input, changes nothing. */
  lemma EnterIgnored(s: State)
    requires !s.commandView && (s.streaming || s.input == "")
    ensures Update(s, Key(Press(Enter))) == Step(s, NoEffect)
  {
  }

  /** An unknown command is answered and the input cleared; the profile is
      not changed. */
  lemma UnknownCommand(s: State)
    requires !s.commandView && !s.streaming && HasPrefix(s.input, "/")
    requires forall i :: 0 <= i < |Commands()| ==> Commands()[i].name != s.input
    ensures var r := Update(s, Key(Press(Enter)));
      && r.state.messages == s.messages + [Message("assistant", "Unknown command: " + s.input)]
      && r.state.input == ""
      && r.state.provider == s.provider && r.state.model == s.model
      && r.effect == NoEffect
  {
    assert s.input != "";
  }

  /** A known command runs its action and leaves the input as it was. */
  lemma KnownCommand(s: State, i: nat)
    requires !s.commandView && !s.streaming && i < |Commands()| && s.input == Commands()[i].name
    ensures var r := Update(s, Key(Press(Enter)));
      && r == RunAction(s, Commands()[i].action)
      && r.state.input == s.input
  {
    CommandNames(i);
    assert Update(s, Key(Press(Enter))) == ChatKey(s, Press(Enter));
    assert ChatKey(s, Press(Enter)) == HandleCommand(s, s.input);
  }

  /** /clear leaves exactly the confirmation message. */
  lemma ClearCommand(s: State)
    requires !s.commandView && !s.streaming && s.input == "/clear"
    ensures Update(s, Key(Press(Enter))).state.messages == [Message("assistant", "Chat history cleared.")]
  {
    KnownCommand(s, 2);
  }

  /** Input editing works whether or not a stream is running: Ctrl+U empties
      the buffer and backspace drops its last character. */
  lemma ClearingIgnoresStreaming(s: State)
    requires !s.commandView
    ensures Update(s, Key(Press(CtrlU))).state == s.(input := "")
    ensures |s.input| > 0 ==> Update(s, Key(Press(Backspace))).state == s.(input := s.input[..|s.input| - 1])
    ensures s.input == "" ==> Update(s, Key(Press(Backspace))) == Step(s, NoEffect)
  {
    assert Update(s, Key(Press(CtrlU))) == ChatKey(s, Press(CtrlU));
    assert Update(s, Key(Press(Backspace))) == ChatKey(s, Press(Backspace));
  }

  /** Typed runes are appended to the buffer whether or not a stream is
      running, unless the key is one of the bound ones. */
  lemma TypingIgnoresStreaming(s: State, runes: string, name: KeyName)
    requires !s.commandView
    requires name !in {CtrlP, CtrlC, Enter, CtrlU, Backspace}
    ensures Update(s, Key(KeyPress(name, Some(runes)))).state == s.(input := s.input + runes)
  {
    assert Update(s, Key(KeyPress(name, Some(runes)))) == ChatKey(s, KeyPress(name, Some(runes)));
  }

  /** Ctrl+P opens the palette with an empty filter and the first entry
      selected, even while streaming. */
  lemma OpenPalette(s: State)
    requires !s.commandView
    ensures Update(s, Key(Press(CtrlP))) ==
      Step(s.(commandView := true, commandInput := "", selectedCmd := 0), NoEffect)
  {
  }

  /** Ctrl+C quits from chat mode and does nothing while the palette is open. */
  lemma CtrlCQuitsOnlyInChat(s: State)
    ensures !s.commandView ==> Update(s, Key(Press(CtrlC))) == Step(s, Quit)
    ensures s.commandView ==> Update(s, Key(Press(CtrlC))) == Step(s, NoEffect)
  {
  }

  /** Escape closes the palette and clears the filter. */
  lemma EscapeClosesPalette(s: State)
    requires s.commandView
    ensures Update(s, Key(Press(Escape))) == Step(s.(commandView := false, commandInput := ""), NoEffect)
  {
  }

  /** Typing in the palette extends the filter and selects the first command
      (of the unfiltered list) that matches it, or keeps the selection. */
  lemma PaletteTyping(s: State, name: KeyName, runes: string)
    requires s.commandView
    requires name !in {Escape, Enter, Up, Down, Backspace}
    ensures var r := Update(s, Key(KeyPress(name, Some(runes))));
      && r == Step(Filter(s, runes), NoEffect)
      && r.state.commandInput == s.commandInput + runes
  {
  }

  /** The palette never starts an exchange, never touches the spinner or the
      streaming flag, and changes the conversation only as an action does. */
  lemma PaletteFacts(s: State, k: KeyPress)
    ensures var r := UpdatePalette(s, k);
      && r.state.spinnerFrame == s.spinnerFrame && r.state.streaming == s.streaming
      && !r.effect.StartStream?
      && Grows(s.messages, r.state.messages)
  {
    if k.name == Escape {
    } else if k.name == Enter && s.selectedCmd < |Commands()| {
      var r := RunAction(s, Commands()[s.selectedCmd].action);
      assert UpdatePalette(s, k) == r;
    } else if k.name == Up && s.selectedCmd > 0 {
    } else if k.name == Down && s.selectedCmd < |Commands()| - 1 {
    } else if k.name == Backspace && |s.commandInput| > 0 {
    } else if k.runes.Some? {
      assert UpdatePalette(s, k).state == Filter(s, k.runes.value);
    }
  }

  /** The palette never edits the chat input, and it quits only when Enter
      runs /exit. */
  lemma PaletteKeepsInput(s: State, k: KeyPress)
    ensures UpdatePalette(s, k).state.input == s.input
    ensures UpdatePalette(s, k).effect.Quit? ==> k.name == Enter
  {
    if k.name == Escape {
    } else if k.name == Enter && s.selectedCmd < |Commands()| {
      assert UpdatePalette(s, k) == RunAction(s, Commands()[s.selectedCmd].action);
    } else if k.name == Up && s.selectedCmd > 0 {
    } else if k.name == Down && s.selectedCmd < |Commands()| - 1 {
    } else if k.name == Backspace && |s.commandInput| > 0 {
    } else if k.runes.Some? {
      assert UpdatePalette(s, k).state == Filter(s, k.runes.value);
    }
  }

  /** The palette keeps the selection inside the command list. */
  lemma PaletteKeepsValid(s: State, k: KeyPress)
    requires Valid(s)
    ensures Valid(UpdatePalette(s, k).state)
  {
    if k.name == Escape || (k.name == Enter && s.selectedCmd < |Commands()|) {
    } else if k.name == Up && s.selectedCmd > 0 {
    } else if k.name == Down && s.selectedCmd < |Commands()| - 1 {
    } else if k.name == Backspace && |s.commandInput| > 0 {
    } else if k.runes.Some? {
      assert UpdatePalette(s, k).state == Filter(s, k.runes.value);
    }
  }

  /** Every step keeps the selection inside the unfiltered command list and
      the spinner frame inside the frame list. */
  lemma UpdateKeepsValid(s: State, e: Event)
    requires Valid(s)
    ensures Valid(Update(s, e).state)
  {
    match e
    case Key(k) =>
      if s.commandView {
        assert Update(s, e) == UpdatePalette(s, k);
        PaletteKeepsValid(s, k);
      } else {
        assert Update(s, e) == ChatKey(s, k);
      }
    case _ =>
  }

  /** Both stream outcomes end streaming; an error records its text; neither
      touches the conversation or the input. */
  lemma StreamOutcomeEvents(s: State, text: string)
    ensures var c := Update(s, StreamComplete).state;
      && !c.streaming && c.messages == s.messages && c.input == s.input && c.errMsg == s.errMsg
    ensures var f := Update(s, StreamError(text)).state;
      && !f.streaming && f.messages == s.messages && f.input == s.input && f.errMsg == text
  {
  }

  /** An exchange is only started by Enter in idle chat mode, carries the
      input, and leaves the state streaming. */
  lemma AtMostOneExchange(s: State, e: Event)
    requires Update(s, e).effect.StartStream?
    ensures !s.streaming && !s.commandView && e.Key? && e.key.name == Enter
    ensures Update(s, e).state.streaming
    ensures Update(s, e).effect.userInput == s.input
  {
    if e.Key? && s.commandView {
      PaletteFacts(s, e.key);
    }
  }

  /** Only key presses can quit or start a stream, and only they touch the
      conversation, the input or the palette. */
  lemma NonKeyEvents(s: State, e: Event)
    requires !e.Key?
    ensures var r := Update(s, e);
      && r.effect == NoEffect
      && r.state.messages == s.messages && r.state.input == s.input
      && r.state.commandView == s.commandView && r.state.selectedCmd == s.selectedCmd
  {
  }

  /** While streaming, every event other than an outcome keeps streaming and
      starts no exchange. */
  lemma StreamingPersists(s: State, e: Event)
    requires s.streaming && !e.StreamComplete? && !e.StreamError?
    ensures Update(s, e).state.streaming && !Update(s, e).effect.StartStream?
  {
    match e
    case Key(k) =>
      if s.commandView {
        assert Update(s, e) == UpdatePalette(s, k);
        PaletteFacts(s, k);
      } else {
        assert Update(s, e) == ChatKey(s, k);
      }
    case _ =>
  }

  /** The state after a run of events, and how many exchanges they started. */
  function Run(s: State, es: seq<Event>): (State, nat)
    decreases |es|
  {
    if |es| == 0 then (s, 0)
    else
      var r := Update(s, es[0]);
      var (t, n) := Run(r.state, es[1..]);
      (t, n + if r.effect.StartStream? then 1 else 0)
  }

  /** No stream outcome arrives among the events. */
  predicate NoOutcome(es: seq<Event>) {
    forall k :: 0 <= k < |es| ==> !es[k].StreamComplete? && !es[k].StreamError?
  }

  /** At most one exchange is in flight: between two outcomes at most one
      exchange starts, none while one is already streaming, and once one has
      started the state stays streaming. */
  lemma {:induction false} AtMostOneStreamInFlight(s: State, es: seq<Event>)
    requires NoOutcome(es)
    ensures Run(s, es).1 <= (if s.streaming then 0 else 1)
    ensures s.streaming || Run(s, es).1 > 0 ==> Run(s, es).0.streaming
    decreases |es|
  {
    if |es| > 0 {
      var r := Update(s, es[0]);
      assert NoOutcome(es[1..]);
      AtMostOneStreamInFlight(r.state, es[1..]);
      if s.streaming {
        StreamingPersists(s, es[0]);
      } else if r.effect.StartStream? {
        AtMostOneExchange(s, es[0]);
      }
    }
  }

  /** The conversation is never reordered: a step keeps it, appends one
      message, or (for /clear) replaces it with the confirmation. */
  lemma HistoryOnlyGrows(s: State, e: Event)
    ensures Grows(s.messages, Update(s, e).state.messages)
  {
    match e
    case Key(k) =>
      if s.commandView {
        assert Update(s, e) == UpdatePalette(s, k);
        PaletteFacts(s, k);
      } else {
        assert Update(s, e) == ChatKey(s, k);
      }
    case _ =>
  }

  /** n spinner ticks. */
  function Ticks(s: State, n: nat): State {
    if n == 0 then s else Update(Ticks(s, n - 1), Tick).state
  }

  /** One tick advances the frame and changes nothing else. */
  lemma TickStep(s: State)
    ensures Update(s, Tick) == Step(s.(spinnerFrame := (s.spinnerFrame + 1) % 10), NoEffect)
  {
  }

  /** Advancing a frame taken modulo ten is advancing the count. */
  lemma NextFrame(k: nat)
    ensures (k % 10 + 1) % 10 == (k + 1) % 10
  {
  }

  /** n ticks advance the frame by n modulo ten, so from frame 0 they reach
      n mod 10; nothing else changes. */
  lemma {:induction false} TicksAdvanceFrame(s: State, n: nat)
    requires s.spinnerFrame < |SpinnerFrames|
    ensures Ticks(s, n).spinnerFrame == (s.spinnerFrame + n) % 10
    ensures Ticks(s, n).(spinnerFrame := s.spinnerFrame) == s
  {
    if n > 0 {
      var t := Ticks(s, n - 1);
      TicksAdvanceFrame(s, n - 1);
      TickStep(t);
      assert Ticks(s, n) == t.(spinnerFrame := (t.spinnerFrame + 1) % 10);
      NextFrame(s.spinnerFrame + n - 1);
    }
  }

  // ---------------------------------------------------------------------
  // The Esc key in the palette

  /** As written: the palette tests for the printed name "escape", while
      Bubble Tea prints the Esc key as "esc"; that key is an ordinary key
      without runes, so the palette stays open with its filter. */
  lemma EscLeavesPaletteOpen(s: State)
    requires s.commandView
    ensures NameOf("esc") == Other("esc")
    ensures Update(s, Key(Press(NameOf("esc")))) == Step(s, NoEffect)
    ensures Update(s, Key(Press(NameOf("esc")))).state.commandView
  {
    assert NameOf("esc") == Other("esc");
    assert Update(s, Key(Press(Other("esc")))) == UpdatePalette(s, Press(Other("esc")));
  }

  /** Corrected: with Esc classified as the escape key, pressing it closes
      the palette and clears its filter. */
  lemma EscClosesPalette(s: State)
    requires s.commandView
    ensures var r := Update(s, Key(Press(IntendedNameOf("esc"))));
      && r == Step(s.(commandView := false, commandInput := ""), NoEffect)
      && !r.state.commandView && r.state.commandInput == ""
  {
    assert IntendedNameOf("esc") == Escape;
  }
}
