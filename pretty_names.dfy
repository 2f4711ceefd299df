/** Display names for scenarios (evaluation/pretty_names.py): a curated table,
    with `str.capitalize` as the best-effort fallback for the other names.
    Case mapping is modelled for ASCII letters only. */
module PrettyNames {

  /** `name2tag`. */
  const Name2Tag: map<string, string> := map[
    "mmlu" := "MMLU",
    "hellaswag" := "Hellaswag",
    "winogrande" := "Winogrande",
    "piqa" := "Piqa",
    "openbookqa" := "OpenbookQA",
    "arc_challenge" := "ARC-C",
    "truthfulqa_mc2" := "TruthfulQA",
    "gsm8k" := "GSM8K",
    "bbh" := "BBH",
    "musr" := "MuSR",
    "mmlu_pro" := "MMLU-PRO",
    "gpqa" := "GPQA",
    "math_hard" := "MATH Lvl 5",
    "ifeval" := "IFEval",
    "toxigen" := "Toxigen"
  ]

  predicate IsLowerLetter(c: char) { 'a' <= c <= 'z' }

  predicate IsUpperLetter(c: char) { 'A' <= c <= 'Z' }

  function ToUpper(c: char): char {
    if IsLowerLetter(c) then (c as int - 32) as char else c
  }

  function ToLower(c: char): char {
    if IsUpperLetter(c) then (c as int + 32) as char else c
  }

  /** Every character lower-cased. */
  function LowerAll(s: string): (r: string)
    ensures |r| == |s|
    ensures forall i :: 0 <= i < |s| ==> r[i] == ToLower(s[i])
  {
    if s == [] then [] else [ToLower(s[0])] + LowerAll(s[1..])
  }

  /** Python's `str.capitalize`: first character upper-cased, the rest
      lower-cased. */
  function Capitalize(s: string): string {
    if s == [] then [] else [ToUpper(s[0])] + LowerAll(s[1..])
  }

  /** `s` is in capitalised form: no lower-case letter first, no upper-case
      letter after it. */
  predicate IsCapitalized(s: string) {
    (s != [] ==> !IsLowerLetter(s[0])) && forall i :: 1 <= i < |s| ==> !IsUpperLetter(s[i])
  }

  /** `s` and `t` spell the same word up to letter case. */
  predicate SameLetters(s: string, t: string) {
    |s| == |t| && forall i :: 0 <= i < |s| ==> ToLower(s[i]) == ToLower(t[i])
  }

  /** `get_pretty_name`: total, never raises. A curated name maps to its table
      value; any other name keeps its length and letters and is capitalised. */
  function GetPrettyName(name: string): (out: string)
    ensures name in Name2Tag ==> out == Name2Tag[name]
    ensures name !in Name2Tag ==> SameLetters(out, name) && IsCapitalized(out)
  {
    if name in Name2Tag then Name2Tag[name] else Capitalize(name)
  }

  /** Capitalising is idempotent: the fallback of a fallback changes nothing. */
  lemma CapitalizeIdempotent(s: string)
    ensures Capitalize(Capitalize(s)) == Capitalize(s)
  {
    if s != [] {
      var c := Capitalize(s);
      assert c[1..] == LowerAll(s[1..]);
      assert LowerAll(c[1..]) == c[1..];
    }
  }

  /** The table values are pairwise distinct, so distinct curated scenarios get
      distinct display columns. */
  lemma Name2TagInjective()
    ensures forall a, b :: a in Name2Tag && b in Name2Tag && a != b ==> Name2Tag[a] != Name2Tag[b]
  {
  }
}
