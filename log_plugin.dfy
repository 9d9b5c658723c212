/**
 * The log plugin that hands the node's standard-output lines to a zap logger: "DMLOG " lines
 * are deep-mind data and are logged only while deep-mind debugging is on; every other line
 * gets a level from its prefix, which the configured regular expressions may then override
 * or suppress.
 *
 * The regular-expression engine is a parameter `matches(pattern, line)`, and Go's unspecified
 * map iteration order is a parameter `order` listing the patterns in the order visited.
 */
module LogPlugin {
  import opened Wrappers

  /** zapcore.Level is an int8. */
  newtype Level = x: int | -128 <= x < 128

  const DebugLevel: Level := -1
  const InfoLevel: Level := 0
  const WarnLevel: Level := 1
  const ErrorLevel: Level := 2
  const DPanicLevel: Level := 3
  const PanicLevel: Level := 4
  const FatalLevel: Level := 5

  /** The pseudo level that hides a line: ten above the fatal level. */
  const NoDisplay: Level := FatalLevel + 10

  const DeepMindPrefix := "DMLOG "

  /** A line handed to the logger at a level. */
  datatype Entry = Entry(level: Level, message: string)

  /** The plugin's one option, ToZapLogPluginAdjustLevels: regular expression to level. */
  datatype PluginOption = AdjustLevels(mappings: map<string, Level>)

  // ---------------------------------------------------------------------------------------
  // The level a line's prefix gives it
  // ---------------------------------------------------------------------------------------

  predicate InfoPrefixed(line: string)
  {
    "<6>info" <= line || "info" <= line
  }

  predicate ErrorPrefixed(line: string)
  {
    "<3>error" <= line || "error" <= line
  }

  predicate WarnPrefixed(line: string)
  {
    "<4>warn" <= line || "warn" <= line
  }

  /** No line carries two of the three level prefixes. */
  lemma PrefixesExclusive(line: string)
    ensures !(InfoPrefixed(line) && ErrorPrefixed(line))
    ensures !(InfoPrefixed(line) && WarnPrefixed(line))
    ensures !(ErrorPrefixed(line) && WarnPrefixed(line))
  {
    assert InfoPrefixed(line) ==> |line| >= 2 && (line[0], line[1]) in {('<', '6'), ('i', 'n')} by {
      if "<6>info" <= line { assert line[0] == "<6>info"[0] && line[1] == "<6>info"[1]; }
      else if "info" <= line { assert line[0] == "info"[0] && line[1] == "info"[1]; }
    }
    assert ErrorPrefixed(line) ==> |line| >= 2 && (line[0], line[1]) in {('<', '3'), ('e', 'r')} by {
      if "<3>error" <= line { assert line[0] == "<3>error"[0] && line[1] == "<3>error"[1]; }
      else if "error" <= line { assert line[0] == "error"[0] && line[1] == "error"[1]; }
    }
    assert WarnPrefixed(line) ==> |line| >= 2 && (line[0], line[1]) in {('<', '4'), ('w', 'a')} by {
      if "<4>warn" <= line { assert line[0] == "<4>warn"[0] && line[1] == "<4>warn"[1]; }
      else if "warn" <= line { assert line[0] == "warn"[0] && line[1] == "warn"[1]; }
    }
  }

  /** The level before adjustment: info, error or warn by prefix, debug for anything else. */
  function PrefixLevel(line: string): (l: Level)
    ensures l == InfoLevel <==> InfoPrefixed(line)
    ensures l == ErrorLevel <==> ErrorPrefixed(line)
    ensures l == WarnLevel <==> WarnPrefixed(line)
    ensures l == DebugLevel <==> !InfoPrefixed(line) && !ErrorPrefixed(line) && !WarnPrefixed(line)
  {
    PrefixesExclusive(line);
    if InfoPrefixed(line) then InfoLevel
    else if ErrorPrefixed(line) then ErrorLevel
    else if WarnPrefixed(line) then WarnLevel
    else DebugLevel
  }

  // ---------------------------------------------------------------------------------------
  // Adjustments
  // ---------------------------------------------------------------------------------------

  /** Every pattern visited is a key of the adjustments. */
  predicate Visits(adjustments: map<string, Level>, order: seq<string>)
  {
    forall k :: k in order ==> k in adjustments
  }

  /** A visiting order of Go's map range: every key of the adjustments, each exactly once. */
  predicate Enumerates(adjustments: map<string, Level>, order: seq<string>)
  {
    && (forall k :: k in order ==> k in adjustments)
    && (forall k :: k in adjustments ==> k in order)
    && |order| == |adjustments|
  }

  /**
   * The adjustment loop, visiting the patterns in `order`: a matching pattern mapped to
   * NoDisplay hides the line (None); any other matching pattern replaces the level.
   */
  function Adjusted(level: Level, adjustments: map<string, Level>, order: seq<string>,
                    line: string, matches: (string, string) -> bool): Option<Level>
    requires Visits(adjustments, order)
    decreases |order|
  {
    if order == [] then Some(level)
    else
      var k := order[0];
      if !matches(k, line) then Adjusted(level, adjustments, order[1..], line, matches)
      else if adjustments[k] == NoDisplay then None
      else Adjusted(adjustments[k], adjustments, order[1..], line, matches)
  }

  /** A line is hidden exactly when some matching pattern maps to NoDisplay, whatever the order. */
  lemma {:induction false} HiddenIffNoDisplayMatches(level: Level, adjustments: map<string, Level>,
                                                    order: seq<string>, line: string,
                                                    matches: (string, string) -> bool)
    requires Visits(adjustments, order)
    ensures Adjusted(level, adjustments, order, line, matches) == None
        <==> exists k :: k in order && matches(k, line) && adjustments[k] == NoDisplay
    decreases |order|
  {
    if order != [] {
      var k := order[0];
      assert forall p :: p in order <==> p == k || p in order[1..];
      if !matches(k, line) {
        HiddenIffNoDisplayMatches(level, adjustments, order[1..], line, matches);
      } else if adjustments[k] != NoDisplay {
        HiddenIffNoDisplayMatches(adjustments[k], adjustments, order[1..], line, matches);
      }
    }
  }

  /** With no matching pattern the prefix's level stands. */
  lemma {:induction false} NoMatchKeepsLevel(level: Level, adjustments: map<string, Level>,
                                            order: seq<string>, line: string,
                                            matches: (string, string) -> bool)
    requires Visits(adjustments, order)
    requires forall k :: k in order ==> !matches(k, line)
    ensures Adjusted(level, adjustments, order, line, matches) == Some(level)
    decreases |order|
  {
    if order != [] {
      assert order[0] in order;
      NoMatchKeepsLevel(level, adjustments, order[1..], line, matches);
    }
  }

  /**
   * When no matching pattern hides the line, the last matching pattern in the visiting order
   * decides the level.
   */
  lemma {:induction false} LastMatchDecides(level: Level, adjustments: map<string, Level>,
                                           order: seq<string>, line: string,
                                           matches: (string, string) -> bool, j: nat)
    requires Visits(adjustments, order)
    requires j < |order| && matches(order[j], line)
    requires forall i :: j < i < |order| ==> !matches(order[i], line)
    requires forall k :: k in order && matches(k, line) ==> adjustments[k] != NoDisplay
    ensures Adjusted(level, adjustments, order, line, matches) == Some(adjustments[order[j]])
    decreases |order|
  {
    var k := order[0];
    assert k in order;
    var next := if matches(k, line) then adjustments[k] else level;
    if j == 0 {
      assert forall p :: p in order[1..] ==> !matches(p, line) by {
        forall p | p in order[1..]
          ensures !matches(p, line)
        {
          var i :| 0 <= i < |order[1..]| && order[1..][i] == p;
          assert order[i + 1] == p;
        }
      }
      NoMatchKeepsLevel(next, adjustments, order[1..], line, matches);
    } else {
      assert order[1..][j - 1] == order[j];
      LastMatchDecides(next, adjustments, order[1..], line, matches, j - 1);
    }
  }

  /**
   * Order does not matter when every matching pattern maps to the same visible level: that
   * level is the result in any visiting order.
   */
  lemma {:induction false} AgreeingMatchesDecide(level: Level, adjustments: map<string, Level>, order: seq<string>,
                              line: string, matches: (string, string) -> bool, target: Level)
    requires Visits(adjustments, order)
    requires target != NoDisplay
    requires exists k :: k in order && matches(k, line)
    requires forall k :: k in order && matches(k, line) ==> adjustments[k] == target
    ensures Adjusted(level, adjustments, order, line, matches) == Some(target)
    decreases |order|
  {
    var k := order[0];
    assert k in order;
    var next := if matches(k, line) then adjustments[k] else level;
    assert forall p :: p in order[1..] ==> p in order;
    if exists p :: p in order[1..] && matches(p, line) {
      AgreeingMatchesDecide(next, adjustments, order[1..], line, matches, target);
    } else {
      var p :| p in order && matches(p, line);
      assert p == k;
      NoMatchKeepsLevel(next, adjustments, order[1..], line, matches);
    }
  }

  // ---------------------------------------------------------------------------------------
  // LogLine
  // ---------------------------------------------------------------------------------------

  /** The level LogLine hands the line to the logger at, or None when it logs nothing. */
  function Classify(debugDeepMind: bool, adjustments: map<string, Level>, order: seq<string>,
                    line: string, matches: (string, string) -> bool): Option<Level>
    requires Enumerates(adjustments, order)
  {
    if DeepMindPrefix <= line then (if debugDeepMind then Some(DebugLevel) else None)
    else Adjusted(PrefixLevel(line), adjustments, order, line, matches)
  }

  /** Deep-mind lines are logged at debug level exactly when deep-mind debugging is on, and no adjustment touches them. */
  lemma DeepMindLines(debugDeepMind: bool, adjustments: map<string, Level>, order: seq<string>,
                      line: string, matches: (string, string) -> bool)
    requires Enumerates(adjustments, order)
    requires DeepMindPrefix <= line
    ensures Classify(debugDeepMind, adjustments, order, line, matches) == Classify(debugDeepMind, map[], [], line, matches)
    ensures Classify(debugDeepMind, adjustments, order, line, matches).Some? <==> debugDeepMind
    ensures Classify(debugDeepMind, adjustments, order, line, matches).Some? ==>
              Classify(debugDeepMind, adjustments, order, line, matches).value == DebugLevel
  {
  }

  /** Any other line is hidden exactly when some matching adjustment is NoDisplay, whatever the order. */
  lemma ClassifyHides(debugDeepMind: bool, adjustments: map<string, Level>, order: seq<string>,
                      line: string, matches: (string, string) -> bool)
    requires Enumerates(adjustments, order)
    requires !(DeepMindPrefix <= line)
    ensures Classify(debugDeepMind, adjustments, order, line, matches) == None
        <==> exists k :: k in adjustments && matches(k, line) && adjustments[k] == NoDisplay
  {
    HiddenIffNoDisplayMatches(PrefixLevel(line), adjustments, order, line, matches);
  }

  /** Any other line that no adjustment matches is logged at its prefix level. */
  lemma ClassifyUnmatched(debugDeepMind: bool, adjustments: map<string, Level>, order: seq<string>,
                          line: string, matches: (string, string) -> bool)
    requires Enumerates(adjustments, order)
    requires !(DeepMindPrefix <= line)
    requires forall k :: k in adjustments ==> !matches(k, line)
    ensures Classify(debugDeepMind, adjustments, order, line, matches) == Some(PrefixLevel(line))
  {
    NoMatchKeepsLevel(PrefixLevel(line), adjustments, order, line, matches);
  }

  /**
   * Any other line that some adjustment matches, where all matching adjustments give the same
   * visible level, is logged at that level, whatever the order.
   */
  lemma ClassifyAgreeing(debugDeepMind: bool, adjustments: map<string, Level>, order: seq<string>,
                         line: string, matches: (string, string) -> bool, target: Level)
    requires Enumerates(adjustments, order)
    requires !(DeepMindPrefix <= line)
    requires target != NoDisplay
    requires exists k :: k in adjustments && matches(k, line)
    requires forall k :: k in adjustments && matches(k, line) ==> adjustments[k] == target
    ensures Classify(debugDeepMind, adjustments, order, line, matches) == Some(target)
  {
    AgreeingMatchesDecide(PrefixLevel(line), adjustments, order, line, matches, target);
  }

  /** What the logger receives for a classified line. */
  function Written(level: Option<Level>, line: string): seq<Entry>
  {
    match level
    case None => []
    case Some(l) => [Entry(l, line)]
  }

  // ---------------------------------------------------------------------------------------
  // Options
  // ---------------------------------------------------------------------------------------

  /** The options applied in turn: a non-empty mapping replaces the adjustments, an empty one leaves them. */
  function ApplyOptions(adjustments: map<string, Level>, options: seq<PluginOption>): map<string, Level>
    decreases |options|
  {
    if options == [] then adjustments
    else
      var first := options[0].mappings;
      ApplyOptions(if |first| > 0 then first else adjustments, options[1..])
  }

  /** The last option with a non-empty mapping wins; with none, the adjustments are unchanged. */
  lemma {:induction false} LastNonEmptyOptionWins(adjustments: map<string, Level>,
                                                 options: seq<PluginOption>, j: nat)
    requires j < |options| && |options[j].mappings| > 0
    requires forall i :: j < i < |options| ==> |options[i].mappings| == 0
    ensures ApplyOptions(adjustments, options) == options[j].mappings
    decreases |options|
  {
    var first := options[0].mappings;
    var next := if |first| > 0 then first else adjustments;
    if j == 0 {
      EmptyOptionsKeep(next, options[1..]);
    } else {
      assert options[1..][j - 1] == options[j];
      LastNonEmptyOptionWins(next, options[1..], j - 1);
    }
  }

  /** Options whose mappings are all empty change nothing. */
  lemma {:induction false} EmptyOptionsKeep(adjustments: map<string, Level>, options: seq<PluginOption>)
    requires forall i :: 0 <= i < |options| ==> |options[i].mappings| == 0
    ensures ApplyOptions(adjustments, options) == adjustments
    decreases |options|
  {
    if options != [] {
      assert |options[0].mappings| == 0;
      EmptyOptionsKeep(adjustments, options[1..]);
    }
  }

  /** The plugin: its logger is the log of entries written to it. */
  class ToZapLogPlugin {
    var debugDeepMind: bool
    var levelAdjustments: map<string, Level>
    var written: seq<Entry>

    /** NewToZapLogPlugin: the options are applied in the order given. */
    constructor(debugDeepMind: bool, options: seq<PluginOption>)
      ensures this.debugDeepMind == debugDeepMind
      ensures levelAdjustments == ApplyOptions(map[], options)
      ensures written == []
    {
      this.debugDeepMind := debugDeepMind;
      levelAdjustments := map[];
      written := [];
      new;
      var i := 0;
      while i < |options|
        invariant 0 <= i <= |options|
        invariant this.debugDeepMind == debugDeepMind && written == []
        invariant ApplyOptions(levelAdjustments, options[i..]) == ApplyOptions(map[], options)
      {
        assert options[i..][1..] == options[i + 1..];
        Apply(options[i]);
        i := i + 1;
      }
    }

    /** One option's apply: a non-empty mapping replaces the adjustments. */
    method Apply(option: PluginOption)
      modifies this`levelAdjustments
      ensures levelAdjustments == if |option.mappings| > 0 then option.mappings else old(levelAdjustments)
    {
      if |option.mappings| > 0 {
        levelAdjustments := option.mappings;
      }
    }

    /** DebugDeepMind(enabled) switches the logging of deep-mind lines. */
    method DebugDeepMind(enabled: bool)
      modifies this`debugDeepMind
      ensures debugDeepMind == enabled
    {
      debugDeepMind := enabled;
    }

    /** LogLine(line), the adjustments visited in `order`, each exactly once. */
    method LogLine(line: string, order: seq<string>, matches: (string, string) -> bool)
      requires Enumerates(levelAdjustments, order)
      modifies this`written
      ensures written == old(written) + Written(Classify(debugDeepMind, levelAdjustments, order, line, matches), line)
    {
      if DeepMindPrefix <= line {
        if debugDeepMind {
          written := written + [Entry(DebugLevel, line)];
        }
        return;
      }
      var level := DebugLevel;
      if "<6>info" <= line || "info" <= line {
        level := InfoLevel;
      } else if "<3>error" <= line || "error" <= line {
        level := ErrorLevel;
      } else if "<4>warn" <= line || "warn" <= line {
        level := WarnLevel;
      }
      var i := 0;
      while i < |order|
        invariant 0 <= i <= |order|
        invariant Adjusted(level, levelAdjustments, order[i..], line, matches)
               == Classify(debugDeepMind, levelAdjustments, order, line, matches)
      {
        assert order[i] in order;
        assert order[i..][1..] == order[i + 1..];
        if matches(order[i], line) {
          if levelAdjustments[order[i]] == NoDisplay {
            return;
          }
          level := levelAdjustments[order[i]];
        }
        i := i + 1;
      }
      written := written + [Entry(level, line)];
    }
  }
}
