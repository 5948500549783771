/** `ScriptReader`: an input that reads from a fixed list of commands
    instead of the console. A reader is an immutable value; a successful
    read returns the value read together with a new reader over the
    commands that remain. */
module Scripts {
  import Results
  import Int32
  import opened Streams
  import StreamGenerators

  const NotEnoughEntries: string := "Not enough entries in script"

  datatype ScriptReader = ScriptReader(commands: seq<string>)

  /** `readString()`: the first command, and a reader over the rest. */
  function ReadString(r: ScriptReader): (res: Results.Result<(string, ScriptReader)>)
    ensures res.Success? <==> |r.commands| > 0
    ensures res.Success? ==> [res.value.0] + res.value.1.commands == r.commands
    ensures !res.Success? ==> res == Results.Failure(NotEnoughEntries)
  {
    if |r.commands| == 0 then Results.Failure(NotEnoughEntries)
    else Results.Success((r.commands[0], ScriptReader(r.commands[1..])))
  }

  predicate IsDigit(c: char) {
    '0' <= c <= '9'
  }

  predicate AllDigits(s: string) {
    forall i :: 0 <= i < |s| ==> IsDigit(s[i])
  }

  /** The number a string of decimal digits denotes, read left to right;
      the empty result when some character is not a digit. */
  function DigitsValue(s: string): Results.Result<nat>
    decreases |s|
  {
    if |s| == 0 then Results.Success(0)
    else if !IsDigit(s[|s| - 1]) then Results.Empty
    else
      match DigitsValue(s[..|s| - 1])
      case Success(v) => Results.Success(v * 10 + (s[|s| - 1] as int - '0' as int))
      case _ => Results.Empty
  }

  /** The digit scanner accepts exactly the all-digit strings. */
  lemma {:induction false} DigitsValueAccepts(s: string)
    ensures DigitsValue(s).Success? <==> AllDigits(s)
    decreases |s|
  {
    if |s| > 0 {
      var init := s[..|s| - 1];
      DigitsValueAccepts(init);
      assert forall i :: 0 <= i < |init| ==> init[i] == s[i];
    }
  }

  /** The message `Integer.parseInt` throws with. */
  function NumberFormatMessage(s: string): string {
    "For input string: \"" + s + "\""
  }

  /** `Integer.parseInt(s)`: an optional `-` or `+`, then one or more decimal
      digits, denoting a value that fits in an `Int`; anything else fails. */
  function ParseInt(s: string): (r: Results.Result<int>)
    ensures r.Success? ==> Int32.InRange(r.value)
    ensures !r.Success? ==> r == Results.Failure(NumberFormatMessage(s))
  {
    var signed := |s| > 0 && (s[0] == '-' || s[0] == '+');
    var digits := if signed then s[1..] else s;
    if |digits| == 0 then Results.Failure(NumberFormatMessage(s))
    else
      match DigitsValue(digits)
      case Success(magnitude) =>
        var v: int := if signed && s[0] == '-' then 0 - magnitude else magnitude;
        if Int32.InRange(v) then Results.Success(v) else Results.Failure(NumberFormatMessage(s))
      case _ => Results.Failure(NumberFormatMessage(s))
  }

  /** What `parseInt` accepts: an optional sign followed by at least one
      digit and nothing else. */
  lemma ParseIntAcceptsOnlyNumerals(s: string)
    ensures ParseInt(s).Success? ==>
      |s| > 0 && (AllDigits(s) || (|s| > 1 && (s[0] == '-' || s[0] == '+') && AllDigits(s[1..])))
  {
    if |s| > 0 {
      DigitsValueAccepts(s);
      DigitsValueAccepts(s[1..]);
    }
  }

  /** `readInt()`: the first command parsed as an `Int` and a reader over
      the rest when it is not negative; the empty result, and no next
      reader, when it is negative; a failure when there is no command or it
      does not parse. */
  function ReadInt(r: ScriptReader): (res: Results.Result<(int, ScriptReader)>)
    ensures res.Success? <==> |r.commands| > 0 && ParseInt(r.commands[0]).Success? && ParseInt(r.commands[0]).value >= 0
    ensures res.Success? ==> ParseInt(r.commands[0]) == Results.Success(res.value.0)
    ensures res.Success? ==> res.value.1.commands == r.commands[1..]
    ensures res.Empty? <==> |r.commands| > 0 && ParseInt(r.commands[0]).Success? && ParseInt(r.commands[0]).value < 0
    ensures |r.commands| == 0 ==> res == Results.Failure(NotEnoughEntries)
    ensures |r.commands| > 0 && !ParseInt(r.commands[0]).Success? ==> res == Results.Failure(NumberFormatMessage(r.commands[0]))
  {
    if |r.commands| == 0 then Results.Failure(NotEnoughEntries)
    else
      match ParseInt(r.commands[0])
      case Success(n) =>
        if n >= 0 then Results.Success((n, ScriptReader(r.commands[1..]))) else Results.Empty
      case Empty => Results.Empty
      case Failure(m) => Results.Failure(m)
  }

  /** A client reading `k` strings in a row, each from the reader the
      previous read returned. */
  function ReadStrings(r: ScriptReader, k: nat): Results.Result<(seq<string>, ScriptReader)>
    decreases k
  {
    if k == 0 then Results.Success(([], r))
    else
      match ReadString(r)
      case Success((s, next)) =>
        (match ReadStrings(next, k - 1)
         case Success((ss, last)) => Results.Success(([s] + ss, last))
         case Empty => Results.Empty
         case Failure(m) => Results.Failure(m))
      case Empty => Results.Empty
      case Failure(m) => Results.Failure(m)
  }

  /** `k` successive reads succeed exactly when there are `k` commands; they
      return the first `k` commands in order and leave a reader over exactly
      the others. */
  lemma {:induction false} ReadStringsConsume(r: ScriptReader, k: nat)
    ensures k <= |r.commands| ==> ReadStrings(r, k) == Results.Success((r.commands[..k], ScriptReader(r.commands[k..])))
    ensures k > |r.commands| ==> ReadStrings(r, k) == Results.Failure(NotEnoughEntries)
    decreases k
  {
    if k > 0 && |r.commands| > 0 {
      var cs := r.commands;
      var next := ScriptReader(cs[1..]);
      ReadStringsConsume(next, k - 1);
      ReadStringsStep(r, k);
      if k <= |cs| {
        assert [cs[0]] + cs[1..][..k - 1] == cs[..k];
        assert cs[1..][k - 1..] == cs[k..];
      }
    }
  }

  /** One step of `ReadStrings` on a non-empty script. */
  lemma ReadStringsStep(r: ScriptReader, k: nat)
    requires k > 0 && |r.commands| > 0
    ensures var rest := ReadStrings(ScriptReader(r.commands[1..]), k - 1);
      ReadStrings(r, k) ==
        if rest.Success? then Results.Success(([r.commands[0]] + rest.value.0, rest.value.1))
        else if rest.Empty? then Results.Empty
        else Results.Failure(rest.message)
  {
  }

  /** Unfolding a reader with `readString` streams its commands in order,
      and the failure at the end of the script ends the stream. */
  lemma {:induction false} UnfoldReadString(commands: seq<string>, depth: nat)
    ensures Elements(StreamGenerators.Unfold(ScriptReader(commands), ReadString, depth)) == commands[..Min(depth, |commands|)]
  {
    if depth > 0 && |commands| > 0 {
      UnfoldReadString(commands[1..], depth - 1);
      UnfoldReadStringStep(commands, depth);
      assert [commands[0]] + commands[1..][..Min(depth - 1, |commands| - 1)] == commands[..Min(depth, |commands|)];
    }
  }

  /** One step of unfolding `readString` over a non-empty script. */
  lemma UnfoldReadStringStep(commands: seq<string>, depth: nat)
    requires depth > 0 && |commands| > 0
    ensures StreamGenerators.Unfold(ScriptReader(commands), ReadString, depth)
      == Cons(commands[0], StreamGenerators.Unfold(ScriptReader(commands[1..]), ReadString, depth - 1))
  {
    assert ReadString(ScriptReader(commands)) == Results.Success((commands[0], ScriptReader(commands[1..])));
  }

  /** Unfolding a reader with `readInt` streams the values of the leading
      commands that parse to non-negative `Int`s; it stops at the end of the
      script, at a negative number, and at a command that does not parse
      alike. */
  lemma {:induction false} UnfoldReadInt(commands: seq<string>, depth: nat)
    ensures var xs := Elements(StreamGenerators.Unfold(ScriptReader(commands), ReadInt, depth));
      && |xs| <= |commands|
      && (forall i :: 0 <= i < |xs| ==> 0 <= xs[i] && ParseInt(commands[i]) == Results.Success(xs[i]))
      && (|xs| < depth && |xs| < |commands| ==>
            !(ParseInt(commands[|xs|]).Success? && ParseInt(commands[|xs|]).value >= 0))
  {
    if depth > 0 && |commands| > 0 && ReadInt(ScriptReader(commands)).Success? {
      UnfoldReadInt(commands[1..], depth - 1);
      UnfoldReadIntStep(commands, depth);
      var n := ReadInt(ScriptReader(commands)).value.0;
      var ys := Elements(StreamGenerators.Unfold(ScriptReader(commands[1..]), ReadInt, depth - 1));
      var xs := [n] + ys;
      forall i | 1 <= i < |xs|
        ensures 0 <= xs[i] && ParseInt(commands[i]) == Results.Success(xs[i])
      {
        assert xs[i] == ys[i - 1] && commands[i] == commands[1..][i - 1];
      }
      if |xs| < depth && |xs| < |commands| {
        assert commands[|xs|] == commands[1..][|ys|];
      }
    } else {
      UnfoldReadIntStops(commands, depth);
    }
  }

  /** Unfolding `readInt` ends at once at a script whose first read is not
      a success. */
  lemma UnfoldReadIntStops(commands: seq<string>, depth: nat)
    requires !(depth > 0 && |commands| > 0 && ReadInt(ScriptReader(commands)).Success?)
    ensures StreamGenerators.Unfold(ScriptReader(commands), ReadInt, depth) == Empty
  {
  }

  /** One step of unfolding `readInt` over a script whose first command
      reads successfully. */
  lemma UnfoldReadIntStep(commands: seq<string>, depth: nat)
    requires depth > 0 && |commands| > 0 && ReadInt(ScriptReader(commands)).Success?
    ensures Elements(StreamGenerators.Unfold(ScriptReader(commands), ReadInt, depth))
      == [ReadInt(ScriptReader(commands)).value.0]
         + Elements(StreamGenerators.Unfold(ScriptReader(commands[1..]), ReadInt, depth - 1))
  {
    var res := ReadInt(ScriptReader(commands));
    assert res == Results.Success((res.value.0, ScriptReader(commands[1..])));
  }

  /** Reference: `Integer.toString` of a non-negative number. */
  function ShowNat(n: nat): (s: string)
    ensures |s| > 0 && IsDigit(s[0])
  {
    var d := [(n % 10 + '0' as int) as char];
    if n < 10 then d else ShowNat(n / 10) + d
  }

  /** Reference: `Integer.toString`. */
  function Show(n: int): string {
    if n < 0 then "-" + ShowNat(-n) else ShowNat(n)
  }

  lemma {:induction false} DigitsValueOfShowNat(n: nat)
    ensures DigitsValue(ShowNat(n)) == Results.Success(n)
  {
    var s := ShowNat(n);
    if n >= 10 {
      DigitsValueOfShowNat(n / 10);
      assert s[..|s| - 1] == ShowNat(n / 10);
    }
  }

  /** `parseInt` reads back every `Int` that `toString` writes. */
  lemma ParseShow(n: int)
    requires Int32.InRange(n)
    ensures ParseInt(Show(n)) == Results.Success(n)
  {
    if n < 0 {
      DigitsValueOfShowNat(-n);
      assert Show(n)[1..] == ShowNat(-n);
    } else {
      DigitsValueOfShowNat(n);
    }
  }

  /** A script whose first command is a written-out `Int` reads it back: a
      success over the remaining commands when it is not negative, the
      empty result when it is. */
  lemma ReadIntOfShow(n: int, rest: seq<string>)
    requires Int32.InRange(n)
    ensures n >= 0 ==> ReadInt(ScriptReader([Show(n)] + rest)) == Results.Success((n, ScriptReader(rest)))
    ensures n < 0 ==> ReadInt(ScriptReader([Show(n)] + rest)) == Results.Empty
  {
    ParseShow(n);
    assert ([Show(n)] + rest)[1..] == rest;
  }
}
