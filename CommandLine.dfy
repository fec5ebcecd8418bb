/** The command-line parser (EyesOfficeTesterCli/CommandLineParser.cs): the
    argument list is copied once, then queried for switches (`--name` or
    `-c`) and for string options (the token after `--name` or `-c`). */
module CommandLine {
  import opened Wrappers

  /** The parser: the argument list, never changed after construction. */
  datatype CommandLineParser = CommandLineParser(args: seq<string>)

  /** `List.get_Item` with an index past the end. */
  datatype ArgumentError = ArgumentOutOfRange

  /** `new CommandLineParser(args)`: `args.ToList()`. */
  function Parse(args: seq<string>): CommandLineParser
  {
    CommandLineParser(args)
  }

  /** The long form of an option. */
  function LongFlag(key: string): string
  {
    "--" + key
  }

  /** The short form of an option. */
  function ShortFlag(shortKey: char): string
  {
    "-" + [shortKey]
  }

  /** `List.IndexOf`: the first position holding `x`, or -1 when there is
      none. */
  function IndexOf(xs: seq<string>, x: string): (i: int)
    ensures -1 <= i < |xs|
    ensures i == -1 <==> x !in xs
    ensures 0 <= i ==> xs[i] == x && x !in xs[..i]
  {
    if xs == [] then -1
    else if xs[0] == x then 0
    else
      var j := IndexOf(xs[1..], x);
      if j == -1 then -1
      else
        assert xs[..j + 1] == [xs[0]] + xs[1..][..j];
        j + 1
  }

  /** The first position holding `x` is what `IndexOf` finds. */
  lemma {:induction false} IndexOfFirst(xs: seq<string>, x: string, i: nat)
    requires i < |xs| && xs[i] == x && x !in xs[..i]
    ensures IndexOf(xs, x) == i
  {
    if i > 0 {
      assert xs[0] == xs[..i][0];
      assert xs[1..][..i - 1] == xs[..i][1..];
      IndexOfFirst(xs[1..], x, i - 1);
    }
  }

  /** The first occurrence of `x` in `xs` is the last token. */
  predicate FirstAtEnd(xs: seq<string>, x: string)
  {
    xs != [] && xs[|xs| - 1] == x && x !in xs[..|xs| - 1]
  }

  /** `IndexOf` finds the last position exactly when `x` first occurs there. */
  lemma IndexOfAtEnd(xs: seq<string>, x: string)
    ensures IndexOf(xs, x) == |xs| - 1 && xs != [] <==> FirstAtEnd(xs, x)
  {
    if FirstAtEnd(xs, x) {
      IndexOfFirst(xs, x, |xs| - 1);
    }
  }

  /** `_args[index + 1]`: the token after `index`, or the indexer's
      exception when `index` is the last position. */
  function TokenAfter(args: seq<string>, index: nat): Result<Option<string>, ArgumentError>
  {
    if index + 1 < |args| then Success(Some(args[index + 1])) else Failure(ArgumentOutOfRange)
  }

  /** `GetStringArgument` as written: the token after the first `--key`,
      else after the first `-shortKey`, else null. The guard
      `_args.Count > index` holds for every found index, so a flag that is
      the last token reaches the indexer and throws. */
  function GetStringArgumentAsWritten(p: CommandLineParser, key: string, shortKey: char)
    : (r: Result<Option<string>, ArgumentError>)
    ensures r.Failure? <==>
      FirstAtEnd(p.args, LongFlag(key)) || (LongFlag(key) !in p.args && FirstAtEnd(p.args, ShortFlag(shortKey)))
    ensures r.Success? && r.value.Some? ==>
      exists i :: 0 <= i < |p.args| - 1 && p.args[i + 1] == r.value.value &&
        (p.args[i] == LongFlag(key) || p.args[i] == ShortFlag(shortKey))
  {
    IndexOfAtEnd(p.args, LongFlag(key));
    IndexOfAtEnd(p.args, ShortFlag(shortKey));
    var index := IndexOf(p.args, LongFlag(key));
    if index >= 0 && |p.args| > index then TokenAfter(p.args, index)
    else
      var shortIndex := IndexOf(p.args, ShortFlag(shortKey));
      if shortIndex >= 0 && |p.args| > shortIndex then TokenAfter(p.args, shortIndex)
      else Success(None)
  }

  /** `GetStringArgument` with the guard it evidently intends,
      `_args.Count > index + 1`: a flag with no token after it counts as
      absent, and the call never throws. A result is always the token right
      after one of the two flags. */
  function GetStringArgument(p: CommandLineParser, key: string, shortKey: char): (r: Option<string>)
    ensures r.Some? ==>
      exists i :: 0 <= i < |p.args| - 1 && p.args[i + 1] == r.value &&
        (p.args[i] == LongFlag(key) || p.args[i] == ShortFlag(shortKey))
  {
    var index := IndexOf(p.args, LongFlag(key));
    if index >= 0 && |p.args| > index + 1 then Some(p.args[index + 1])
    else
      var shortIndex := IndexOf(p.args, ShortFlag(shortKey));
      if shortIndex >= 0 && |p.args| > shortIndex + 1 then Some(p.args[shortIndex + 1])
      else None
  }

  /** `GetSwitchArgument`: whether either form of the flag is present. */
  function GetSwitchArgument(p: CommandLineParser, value: string, shortKey: char): (b: bool)
    ensures b <==>
      exists i :: 0 <= i < |p.args| &&
        (p.args[i] == LongFlag(value) || p.args[i] == ShortFlag(shortKey))
  {
    LongFlag(value) in p.args || ShortFlag(shortKey) in p.args
  }

  // ---------------------------------------------------------------------
  // Properties
  // ---------------------------------------------------------------------

  /** The first `--key` followed by a token yields that token, whatever the
      short form does; both versions agree. */
  lemma LongFlagValue(p: CommandLineParser, key: string, shortKey: char, i: nat)
    requires i + 1 < |p.args| && p.args[i] == LongFlag(key) && LongFlag(key) !in p.args[..i]
    ensures GetStringArgumentAsWritten(p, key, shortKey) == Success(Some(p.args[i + 1]))
    ensures GetStringArgument(p, key, shortKey) == Some(p.args[i + 1])
  {
    IndexOfFirst(p.args, LongFlag(key), i);
  }

  /** Without `--key`, the short form decides. */
  lemma ShortFlagWhenLongAbsent(p: CommandLineParser, key: string, shortKey: char)
    requires LongFlag(key) !in p.args
    ensures var shortIndex := IndexOf(p.args, ShortFlag(shortKey));
      GetStringArgumentAsWritten(p, key, shortKey) ==
        if shortIndex >= 0 then TokenAfter(p.args, shortIndex) else Success(None)
  {
  }

  /** The result is null exactly when neither form of the flag occurs. */
  lemma NullIffSwitchAbsent(p: CommandLineParser, key: string, shortKey: char)
    ensures GetStringArgumentAsWritten(p, key, shortKey) == Success(None) <==>
      !GetSwitchArgument(p, key, shortKey)
  {
    var index := IndexOf(p.args, LongFlag(key));
    var shortIndex := IndexOf(p.args, ShortFlag(shortKey));
    if index >= 0 {
      assert GetStringArgumentAsWritten(p, key, shortKey) == TokenAfter(p.args, index);
    } else if shortIndex >= 0 {
      assert GetStringArgumentAsWritten(p, key, shortKey) == TokenAfter(p.args, shortIndex);
    }
  }

  /** The source's guard never rejects a found index. */
  lemma GuardAlwaysHolds(xs: seq<string>, x: string)
    ensures IndexOf(xs, x) >= 0 ==> |xs| > IndexOf(xs, x)
  {
  }

  /** A `--key` that is the last token (and occurs nowhere before) makes the
      source's lookup throw. */
  lemma LongFlagLastThrows(p: CommandLineParser, key: string, shortKey: char)
    requires |p.args| > 0 && p.args[|p.args| - 1] == LongFlag(key)
    requires LongFlag(key) !in p.args[..|p.args| - 1]
    ensures GetStringArgumentAsWritten(p, key, shortKey) == Failure(ArgumentOutOfRange)
  {
    IndexOfFirst(p.args, LongFlag(key), |p.args| - 1);
  }

  /** The command line `--directory` with nothing after it: the source
      throws instead of falling back to the executable's directory. */
  lemma DirectoryFlagLastThrows()
    ensures GetStringArgumentAsWritten(Parse(["--directory"]), "directory", 'd')
      == Failure(ArgumentOutOfRange)
    ensures GetStringArgument(Parse(["--directory"]), "directory", 'd') == None
  {
    var p := Parse(["--directory"]);
    LongFlagLastThrows(p, "directory", 'd');
    assert ShortFlag('d') !in p.args;
  }

  /** Wherever the source's lookup does not throw, the corrected lookup gives
      the same result. */
  lemma CorrectedAgreesWhenDefined(p: CommandLineParser, key: string, shortKey: char)
    ensures GetStringArgumentAsWritten(p, key, shortKey).Success? ==>
      GetStringArgumentAsWritten(p, key, shortKey).value == GetStringArgument(p, key, shortKey)
  {
    var index := IndexOf(p.args, LongFlag(key));
    var shortIndex := IndexOf(p.args, ShortFlag(shortKey));
    if index >= 0 {
      assert GetStringArgumentAsWritten(p, key, shortKey) == TokenAfter(p.args, index);
    }
  }
}
