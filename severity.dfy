/** Log severities (package logging/severity) and their printed names. */
module Severity {

  /** A Go `int`: 64 bits wide. */
  newtype Severity = x: int | -0x8000_0000_0000_0000 <= x < 0x8000_0000_0000_0000

  const Debug: Severity := 0
  const Info: Severity := 1
  const Warn: Severity := 2
  const Error: Severity := 3
  const Fatal: Severity := 4

  /** The five named levels, least severe first. */
  const Levels: seq<Severity> := [Debug, Info, Warn, Error, Fatal]

  /** Their names, in the same order. */
  const Names: seq<string> := ["DEBUG", "INFO", "WARN", "ERROR", "FATAL"]

  /** The levels are the consecutive integers from 0, in increasing severity. */
  lemma LevelsAreConsecutive()
    ensures |Levels| == 5
    ensures forall i :: 0 <= i < |Levels| ==> Levels[i] as int == i
  {
  }

  /** One of the five named levels. */
  predicate Defined(s: Severity) {
    Debug <= s <= Fatal
  }

  /** The printed name of a severity; "UNKNOWN" for any other value. */
  function String(s: Severity): (name: string)
    ensures Defined(s) <==> name != "UNKNOWN"
  {
    if s == Debug then "DEBUG"
    else if s == Info then "INFO"
    else if s == Warn then "WARN"
    else if s == Error then "ERROR"
    else if s == Fatal then "FATAL"
    else "UNKNOWN"
  }

  /** Each named level prints as the name at its own position. */
  lemma StringMatchesNames(s: Severity)
    ensures String(s) == if Defined(s) then Names[s] else "UNKNOWN"
  {
  }

  /** Distinct named levels print differently. */
  lemma StringInjective(s: Severity, t: Severity)
    requires Defined(s) && Defined(t) && s != t
    ensures String(s) != String(t)
  {
    StringMatchesNames(s);
    StringMatchesNames(t);
    assert forall i, j :: 0 <= i < j < |Names| ==> Names[i] != Names[j];
  }
}
