/**
 The REPL's pure decision logic: tokenising an input line (`cleanInput`) and
 choosing the command and its argument from the tokens.
 */
module Repl {
  import opened Wrappers
  import opened GoStrings

  /** The trim of one piece, kept only when it is not empty. */
  function Kept(piece: string): seq<string>
  {
    var c := TrimSpace(piece);
    if c != "" then [c] else []
  }

  /** The trimmed, non-empty pieces, in order. */
  function NonEmptyTrimmed(pieces: seq<string>): seq<string>
  {
    if pieces == [] then [] else Kept(pieces[0]) + NonEmptyTrimmed(pieces[1..])
  }

  /** The words `cleanInput` returns for `text`. */
  function CleanWords(text: string): seq<string>
  {
    NonEmptyTrimmed(Split(TrimSpace(text)))
  }

  /** Keeping the trimmed non-empty pieces distributes over concatenation, so the
      words keep the order of the pieces they come from. */
  lemma {:induction false} NonEmptyTrimmedAppend(a: seq<string>, b: seq<string>)
    ensures NonEmptyTrimmed(a + b) == NonEmptyTrimmed(a) + NonEmptyTrimmed(b)
    decreases |a|
  {
    if a != [] {
      assert (a + b)[0] == a[0];
      assert (a + b)[1..] == a[1..] + b;
      NonEmptyTrimmedAppend(a[1..], b);
      calc {
        NonEmptyTrimmed(a + b);
        Kept(a[0]) + NonEmptyTrimmed(a[1..] + b);
        Kept(a[0]) + (NonEmptyTrimmed(a[1..]) + NonEmptyTrimmed(b));
        (Kept(a[0]) + NonEmptyTrimmed(a[1..])) + NonEmptyTrimmed(b);
      }
    } else {
      assert a + b == b;
    }
  }

  /** One more piece adds its kept trim at the end. */
  lemma NonEmptyTrimmedStep(pieces: seq<string>, i: nat)
    requires i < |pieces|
    ensures NonEmptyTrimmed(pieces[..i + 1]) == NonEmptyTrimmed(pieces[..i]) + Kept(pieces[i])
  {
    assert pieces[..i + 1] == pieces[..i] + [pieces[i]];
    NonEmptyTrimmedAppend(pieces[..i], [pieces[i]]);
    assert NonEmptyTrimmed([pieces[i]]) == Kept(pieces[i]) + NonEmptyTrimmed([]);
  }

  /** A word is kept exactly when it is the non-empty trim of some piece. */
  lemma {:induction false} NonEmptyTrimmedMembers(pieces: seq<string>, w: string)
    ensures w in NonEmptyTrimmed(pieces) <==>
      w != "" && exists i :: 0 <= i < |pieces| && TrimSpace(pieces[i]) == w
    decreases |pieces|
  {
    if pieces != [] {
      NonEmptyTrimmedMembers(pieces[1..], w);
      if exists i :: 0 <= i < |pieces| && TrimSpace(pieces[i]) == w {
        var i :| 0 <= i < |pieces| && TrimSpace(pieces[i]) == w;
        if i > 0 { assert pieces[1..][i - 1] == pieces[i]; }
      }
      if exists i :: 0 <= i < |pieces[1..]| && TrimSpace(pieces[1..][i]) == w {
        var i :| 0 <= i < |pieces[1..]| && TrimSpace(pieces[1..][i]) == w;
        assert pieces[i + 1] == pieces[1..][i];
      }
    }
  }

  /** Every word is non-empty and equal to its own trimmed form. */
  lemma {:induction false} WordsAreTrimmed(pieces: seq<string>)
    ensures forall w :: w in NonEmptyTrimmed(pieces) ==> w != "" && Trimmed(w) && TrimSpace(w) == w
    decreases |pieces|
  {
    if pieces != [] {
      WordsAreTrimmed(pieces[1..]);
      KeptIsTrimmed(pieces[0]);
      assert NonEmptyTrimmed(pieces) == Kept(pieces[0]) + NonEmptyTrimmed(pieces[1..]);
    }
  }

  lemma KeptIsTrimmed(piece: string)
    ensures forall w :: w in Kept(piece) ==> w != "" && Trimmed(w) && TrimSpace(w) == w
  {
    TrimSpaceOfTrimmed(TrimSpace(piece));
  }

  /** A line yields no words exactly when it is empty or all white space. */
  lemma CleanWordsEmpty(text: string)
    ensures CleanWords(text) == [] <==> AllSpace(text)
  {
    var t := TrimSpace(text);
    var pieces := Split(t);
    if AllSpace(text) {
      assert t == "";
      assert pieces == [""];
      assert AllSpace("");
      assert Kept("") == [];
      assert NonEmptyTrimmed(pieces) == Kept("") + NonEmptyTrimmed([]);
    } else {
      assert t != "" && !IsSpace(t[0]);
      assert pieces[0] == [t[0]] + Split(t[1..])[0];
      assert pieces[0][0] == t[0];
      assert !AllSpace(pieces[0]);
      assert TrimSpace(pieces[0]) != "";
    }
  }

  /** `cleanInput`: trim the line, split it on single spaces, trim each piece and
      keep the non-empty ones. */
  method CleanInput(text: string) returns (words: seq<string>)
    ensures words == CleanWords(text)
  {
    var cleaned := TrimSpace(text);
    var split := Split(cleaned);
    words := [];
    for i := 0 to |split|
      invariant words == NonEmptyTrimmed(split[..i])
    {
      var c := TrimSpace(split[i]);
      if c != "" {
        words := words + [c];
      }
      NonEmptyTrimmedStep(split, i);
    }
    assert split[..|split|] == split;
  }

  /** The REPL's commands, keyed by name in its command table. */
  datatype Command = Exit | Help | MapForward | MapBack | Explore | Catch | Inspect | Pokedex

  /** The name each command is registered under. */
  function NameOf(c: Command): string
  {
    match c
    case Exit => "exit"
    case Help => "help"
    case MapForward => "map"
    case MapBack => "mapb"
    case Explore => "explore"
    case Catch => "catch"
    case Inspect => "inspect"
    case Pokedex => "pokedex"
  }

  /** A lookup in the command table. */
  function CommandNamed(name: string): Option<Command>
  {
    match name
    case "exit" => Some(Exit)
    case "help" => Some(Help)
    case "map" => Some(MapForward)
    case "mapb" => Some(MapBack)
    case "explore" => Some(Explore)
    case "catch" => Some(Catch)
    case "inspect" => Some(Inspect)
    case "pokedex" => Some(Pokedex)
    case _ => None
  }

  /** The table finds a command exactly under its own name. */
  lemma CommandTable(name: string, c: Command)
    ensures CommandNamed(name) == Some(c) <==> name == NameOf(c)
  {
  }

  /** What the REPL does with one line's words. */
  datatype Dispatch =
    | IndexOutOfRange                        // the words are empty: `ci[0]` panics
    | EmptyLine                              // the guarded rule skips a blank line
    | UnknownCommand                         // no table entry for the first word
    | Invoke(cmd: Command, arg: string)      // run `cmd` with `arg`

  /** The dispatch rule: look the lower-cased first word up; the argument is the
      lower-cased second word, or "" when there is none. */
  function DispatchWords(words: seq<string>): (d: Dispatch)
    ensures d.IndexOutOfRange? <==> words == []
    ensures !d.EmptyLine?
    ensures d.Invoke? ==> NameOf(d.cmd) == ToLower(words[0]) && ToLower(d.arg) == d.arg
    ensures d.UnknownCommand? <==> words != [] && forall c: Command :: NameOf(c) != ToLower(words[0])
  {
    if words == [] then IndexOutOfRange
    else match CommandNamed(ToLower(words[0]))
      case None => UnknownCommand
      case Some(cmd) => Invoke(cmd, if |words| < 2 then "" else ToLower(words[1]))
  }

  /** Only the first two words matter: the rest of the line is ignored. */
  lemma DispatchIgnoresExtraWords(words: seq<string>)
    requires |words| >= 2
    ensures DispatchWords(words) == DispatchWords(words[..2])
  {
  }

  /** Dispatching a command: the first word names it (in any ASCII case) and the
      argument is the lower-cased second word, or "" for a one-word line. */
  lemma DispatchInvokes(words: seq<string>, cmd: Command, arg: string)
    ensures DispatchWords(words) == Invoke(cmd, arg) <==>
      words != [] && ToLower(words[0]) == NameOf(cmd) &&
      arg == (if |words| < 2 then "" else ToLower(words[1]))
  {
    if words != [] {
      CommandTable(ToLower(words[0]), cmd);
    }
  }

  /** The command word is lower-cased as Go lower-cases it, so a first word
      spelled with KELVIN SIGN for the 'K' still selects `pokedex`. */
  lemma KelvinSignSelectsPokedex()
    ensures DispatchWords(["PO\U{212A}EDEX"]) == Invoke(Pokedex, "")
  {
    assert ToLower("PO\U{212A}EDEX") == "pokedex";
  }

  /** A line panics on `ci[0]` exactly when it is empty or all white space. */
  lemma BlankLinePanics(text: string)
    ensures DispatchWords(CleanWords(text)) == IndexOutOfRange <==> AllSpace(text)
  {
    CleanWordsEmpty(text);
  }

  /** The dispatch rule with the evidently intended guard: a line without words
      is skipped instead of being indexed. */
  function GuardedDispatch(words: seq<string>): Dispatch
  {
    if words == [] then EmptyLine else DispatchWords(words)
  }

  /** The guarded rule never panics, skips exactly the blank lines, and agrees
      with the unguarded rule on every line that has a word. */
  lemma GuardedDispatchSafe(text: string)
    ensures GuardedDispatch(CleanWords(text)) != IndexOutOfRange
    ensures GuardedDispatch(CleanWords(text)) == EmptyLine <==> AllSpace(text)
    ensures !AllSpace(text) ==> GuardedDispatch(CleanWords(text)) == DispatchWords(CleanWords(text))
  {
    CleanWordsEmpty(text);
  }
}
