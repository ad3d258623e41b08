/**
 * The command line of the proxy: the loop in `Main` that scans the arguments
 * one index at a time, and the choice between clearing the cache, printing the
 * usage text and serving.
 */
module CommandLine {
  import opened Wrappers
  import opened Numerals

  const ORIGIN_OPTION: string := "--origin"
  const PORT_OPTION: string := "--port"
  const CLEAR_CACHE_OPTION: string := "--clear-cache"

  /** The three locals of `Main` once the arguments are scanned; `None` is C#'s `null`. */
  datatype Config = Config(originUrl: Option<string>, port: Int32, clearCache: bool)

  /** The scan either finishes, or `int.Parse` throws on a `--port` value and ends the process. */
  datatype ParseOutcome = Parsed(config: Config) | MalformedPort

  /** What `Main` does after the scan. */
  datatype Mode = ClearCacheAndExit | UsageAndExit | Serve(port: Int32, originUrl: string)

  /** Index `i` holds `option` and there is an argument after it, so the option's guard lets it through. */
  predicate HasValueAt(args: seq<string>, option: string, i: int) {
    0 <= i && i + 1 < |args| && args[i] == option
  }

  /** Index `i` is the last position where `option` is followed by a value. */
  ghost predicate IsLastValuedAt(args: seq<string>, option: string, i: int) {
    HasValueAt(args, option, i) && forall j :: i < j ==> !HasValueAt(args, option, j)
  }

  /**
   * The value that follows the last occurrence of `option` that has one,
   * found by looking from the end of the arguments backwards.
   */
  function LastValue(args: seq<string>, option: string): Option<string>
    decreases |args|
  {
    if |args| < 2 then None
    else if args[|args| - 2] == option then Some(args[|args| - 1])
    else LastValue(args[..|args| - 1], option)
  }

  /** Some `--port` that has a value is followed by text `int.Parse` refuses. */
  ghost predicate PortMalformed(args: seq<string>) {
    exists i :: HasValueAt(args, PORT_OPTION, i) && ParseInt32(args[i + 1]).None?
  }

  /** The port the last valued `--port` names, or the initial 0 when there is none. */
  function PortValue(args: seq<string>): Int32 {
    match LastValue(args, PORT_OPTION)
    case None => 0
    case Some(v) => ParseInt32(v).GetOr(0)
  }

  /** What scanning `args` yields, stated without reference to the order of the scan. */
  ghost function Parse(args: seq<string>): ParseOutcome {
    if PortMalformed(args) then MalformedPort
    else Parsed(Config(LastValue(args, ORIGIN_OPTION), PortValue(args), CLEAR_CACHE_OPTION in args))
  }

  /** The arguments whose options the first `i` iterations can have read, values included. */
  function Scanned(args: seq<string>, i: nat): seq<string>
    requires i <= |args|
  {
    if i < |args| then args[..i + 1] else args
  }

  /** One more iteration of the loop can change the last value of `option` only at index `i`. */
  lemma ScannedStep(args: seq<string>, i: nat, option: string)
    requires i < |args|
    ensures LastValue(Scanned(args, i + 1), option) ==
      if HasValueAt(args, option, i) then Some(args[i + 1]) else LastValue(Scanned(args, i), option)
  {
    var next := Scanned(args, i + 1);
    if i + 1 < |args| {
      assert |next| == i + 2 && next[i] == args[i] && next[i + 1] == args[i + 1];
      assert next[..|next| - 1] == Scanned(args, i);
    } else {
      assert args[..i + 1] == args;
    }
  }

  /** Every `--port` before index `i` that has a value has a well-formed one. */
  ghost predicate PortsParsedBefore(args: seq<string>, i: int) {
    forall j :: 0 <= j < i && HasValueAt(args, PORT_OPTION, j) ==> ParseInt32(args[j + 1]).Some?
  }

  /** What the body of the loop does at index `i`, seen from the specification functions. */
  lemma ScanStep(args: seq<string>, i: nat)
    requires i < |args|
    ensures LastValue(Scanned(args, i + 1), ORIGIN_OPTION) ==
      if HasValueAt(args, ORIGIN_OPTION, i) then Some(args[i + 1]) else LastValue(Scanned(args, i), ORIGIN_OPTION)
    ensures PortValue(Scanned(args, i + 1)) ==
      if HasValueAt(args, PORT_OPTION, i) then ParseInt32(args[i + 1]).GetOr(0) else PortValue(Scanned(args, i))
    ensures (CLEAR_CACHE_OPTION in args[..i + 1]) <==> (CLEAR_CACHE_OPTION in args[..i] || args[i] == CLEAR_CACHE_OPTION)
    ensures PortsParsedBefore(args, i) && (HasValueAt(args, PORT_OPTION, i) ==> ParseInt32(args[i + 1]).Some?)
      ==> PortsParsedBefore(args, i + 1)
  {
    ScannedStep(args, i, ORIGIN_OPTION);
    ScannedStep(args, i, PORT_OPTION);
    assert args[..i + 1] == args[..i] + [args[i]];
  }

  /** The argument loop of `Main`. */
  method ParseArgs(args: seq<string>) returns (r: ParseOutcome)
    ensures r == Parse(args)
  {
    var originUrl: Option<string> := None;
    var port: Int32 := 0;
    var clearCache := false;
    for i := 0 to |args|
      invariant originUrl == LastValue(Scanned(args, i), ORIGIN_OPTION)
      invariant port == PortValue(Scanned(args, i))
      invariant clearCache <==> CLEAR_CACHE_OPTION in args[..i]
      invariant PortsParsedBefore(args, i)
    {
      ScanStep(args, i);
      if args[i] == ORIGIN_OPTION && i + 1 < |args| {
        originUrl := Some(args[i + 1]);
      } else if args[i] == PORT_OPTION && i + 1 < |args| {
        var parsed := ParseInt32(args[i + 1]);
        if parsed.None? {
          MalformedPortAborts(args, i);
          return MalformedPort;
        }
        port := parsed.value;
      } else if args[i] == CLEAR_CACHE_OPTION {
        clearCache := true;
      }
    }
    CompletedScan(args);
    r := Parsed(Config(originUrl, port, clearCache));
  }

  lemma MalformedPortAborts(args: seq<string>, i: int)
    requires HasValueAt(args, PORT_OPTION, i) && ParseInt32(args[i + 1]).None?
    ensures Parse(args) == MalformedPort
  {
  }

  lemma CompletedScan(args: seq<string>)
    requires PortsParsedBefore(args, |args|)
    ensures Scanned(args, |args|) == args[..|args|] == args
    ensures Parse(args) == Parsed(Config(LastValue(args, ORIGIN_OPTION), PortValue(args), CLEAR_CACHE_OPTION in args))
  {
  }

  /** The `if` statements that follow the loop in `Main`. */
  function SelectMode(config: Config): (m: Mode)
    ensures m == ClearCacheAndExit <==> config.clearCache
    ensures m.Serve? <==> !config.clearCache && config.port != 0 && config.originUrl.Some?
    ensures m == UsageAndExit <==> !config.clearCache && (config.port == 0 || config.originUrl.None?)
    ensures m.Serve? ==> m.port == config.port && m.originUrl == config.originUrl.value
  {
    if config.clearCache then ClearCacheAndExit
    else if config.port == 0 || config.originUrl.None? then UsageAndExit
    else Serve(config.port, config.originUrl.value)
  }

  /**
   * Last occurrence wins: `LastValue` is absent exactly when no occurrence of
   * `option` has a value, and otherwise it is the value after the last one.
   */
  lemma {:induction false} LastValueIsLastOccurrence(args: seq<string>, option: string)
    ensures LastValue(args, option).None? <==> forall i :: !HasValueAt(args, option, i)
    ensures forall i :: IsLastValuedAt(args, option, i) ==> LastValue(args, option) == Some(args[i + 1])
    ensures LastValue(args, option).Some? ==>
      exists i :: IsLastValuedAt(args, option, i) && LastValue(args, option) == Some(args[i + 1])
  {
    var n := |args|;
    if n >= 2 {
      var front := args[..n - 1];
      LastValueIsLastOccurrence(front, option);
      forall i | 0 <= i < n - 2
        ensures HasValueAt(front, option, i) <==> HasValueAt(args, option, i)
        ensures front[i + 1] == args[i + 1]
      {
      }
      if args[n - 2] == option {
        assert IsLastValuedAt(args, option, n - 2);
        forall i | IsLastValuedAt(args, option, i) ensures i == n - 2 {
          assert i < n - 2 ==> HasValueAt(args, option, n - 2);
        }
      } else {
        forall i | HasValueAt(args, option, i) ensures HasValueAt(front, option, i) {
        }
        forall i | IsLastValuedAt(args, option, i) ensures IsLastValuedAt(front, option, i) {
          forall j | i < j ensures !HasValueAt(front, option, j) {
            assert HasValueAt(front, option, j) ==> HasValueAt(args, option, j);
          }
        }
        if LastValue(front, option).Some? {
          var i :| IsLastValuedAt(front, option, i) && LastValue(front, option) == Some(front[i + 1]);
          assert IsLastValuedAt(args, option, i);
        }
      }
    }
  }

  /** Appending after a non-option leaves the last value of `option` as it was. */
  lemma LastValueAppendInert(args: seq<string>, x: string, option: string)
    requires args == [] || args[|args| - 1] != option
    ensures LastValue(args + [x], option) == LastValue(args, option)
  {
    assert (args + [x])[..|args|] == args;
  }

  /**
   * A trailing `--origin` or `--port` with nothing after it is ignored, and so
   * is any trailing argument other than `--clear-cache`, unless it is the value
   * of the option before it.
   */
  lemma TrailingArgumentIgnored(args: seq<string>, x: string)
    requires x != CLEAR_CACHE_OPTION
    requires args == [] || args[|args| - 1] !in {ORIGIN_OPTION, PORT_OPTION}
    ensures Parse(args + [x]) == Parse(args)
  {
    var longer := args + [x];
    LastValueAppendInert(args, x, ORIGIN_OPTION);
    LastValueAppendInert(args, x, PORT_OPTION);
    forall i | HasValueAt(longer, PORT_OPTION, i)
      ensures HasValueAt(args, PORT_OPTION, i) && longer[i + 1] == args[i + 1]
    {
      assert i != |args| - 1;
    }
    forall i | HasValueAt(args, PORT_OPTION, i)
      ensures HasValueAt(longer, PORT_OPTION, i) && longer[i + 1] == args[i + 1]
    {
    }
    assert PortMalformed(longer) <==> PortMalformed(args);
  }

  /** Inserting an argument that is neither an option nor an option's value changes nothing. */
  lemma {:induction false} LastValueInsertInert(pre: seq<string>, x: string, post: seq<string>, option: string)
    requires x != option
    requires pre == [] || pre[|pre| - 1] != option
    ensures LastValue(pre + [x] + post, option) == LastValue(pre + post, option)
    decreases |post|
  {
    var with, without := pre + [x] + post, pre + post;
    if post == [] {
      assert with == pre + [x] && without == pre;
      LastValueAppendInert(pre, x, option);
    } else if |post| == 1 {
      assert with[..|with| - 1] == pre + [x];
      LastValueAppendInert(pre, x, option);
      if pre != [] {
        assert without[..|without| - 1] == pre;
      }
    } else {
      var front := post[..|post| - 1];
      assert with[..|with| - 1] == pre + [x] + front;
      assert without[..|without| - 1] == pre + front;
      LastValueInsertInert(pre, x, front, option);
    }
  }

  /**
   * An unrecognised argument that does not follow `--origin` or `--port`
   * changes nothing: removing it yields the same outcome.
   */
  lemma UnrecognisedArgumentIgnored(pre: seq<string>, x: string, post: seq<string>)
    requires x !in {ORIGIN_OPTION, PORT_OPTION, CLEAR_CACHE_OPTION}
    requires pre == [] || pre[|pre| - 1] !in {ORIGIN_OPTION, PORT_OPTION}
    ensures Parse(pre + [x] + post) == Parse(pre + post)
  {
    var with, without := pre + [x] + post, pre + post;
    LastValueInsertInert(pre, x, post, ORIGIN_OPTION);
    LastValueInsertInert(pre, x, post, PORT_OPTION);
    var n := |pre|;
    forall i | HasValueAt(with, PORT_OPTION, i)
      ensures var k := if i < n then i else i - 1;
        HasValueAt(without, PORT_OPTION, k) && without[k + 1] == with[i + 1]
    {
      assert i != n - 1 && i != n;
    }
    forall k | HasValueAt(without, PORT_OPTION, k)
      ensures var i := if k < n then k else k + 1;
        HasValueAt(with, PORT_OPTION, i) && with[i + 1] == without[k + 1]
    {
      assert k != n - 1;
    }
    assert PortMalformed(with) <==> PortMalformed(without);
    assert (CLEAR_CACHE_OPTION in with) <==> (CLEAR_CACHE_OPTION in without);
  }

  /**
   * `--clear-cache` anywhere selects clear mode whatever the port and origin,
   * unless a malformed `--port` value made `int.Parse` throw first.
   */
  lemma ClearCacheOverridesOtherOptions(args: seq<string>)
    requires CLEAR_CACHE_OPTION in args
    ensures PortMalformed(args) ==> Parse(args) == MalformedPort
    ensures !PortMalformed(args) ==> Parse(args).Parsed? && SelectMode(Parse(args).config) == ClearCacheAndExit
  {
  }

  /** Serving needs both a non-zero port and an origin, and no `--clear-cache`. */
  lemma ServeNeedsPortAndOrigin(args: seq<string>)
    requires Parse(args).Parsed?
    ensures SelectMode(Parse(args).config).Serve? <==>
      CLEAR_CACHE_OPTION !in args && PortValue(args) != 0 && LastValue(args, ORIGIN_OPTION).Some?
  {
  }

  /** The value of `--origin` is itself scanned, so `--origin --clear-cache` both sets the origin and clears. */
  lemma OptionValueIsRescanned()
    ensures Parse([ORIGIN_OPTION, CLEAR_CACHE_OPTION]) == Parsed(Config(Some(CLEAR_CACHE_OPTION), 0, true))
  {
    var args := [ORIGIN_OPTION, CLEAR_CACHE_OPTION];
    assert LastValue(args, PORT_OPTION) == None by {
      assert args[..1] == [ORIGIN_OPTION];
    }
    LastValueIsLastOccurrence(args, PORT_OPTION);
    assert !PortMalformed(args);
  }

  /** `--port --origin x` hands the text `--origin` to `int.Parse`, which throws. */
  lemma PortValueIsAnOption()
    ensures Parse([PORT_OPTION, ORIGIN_OPTION, "x"]) == MalformedPort
  {
    var args := [PORT_OPTION, ORIGIN_OPTION, "x"];
    assert HasValueAt(args, PORT_OPTION, 0);
    ParseRejectsNonDigit(ORIGIN_OPTION, 1);
  }
}
