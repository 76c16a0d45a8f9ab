/** How a configured check is named (sauna/__init__.py, get_all_active_checks). */
module Naming {
  import opened Wrappers
  import opened Config

  /** ASCII lower-casing of one character; other characters are unchanged. */
  function LowerChar(c: char): char
  {
    if 'A' <= c <= 'Z' then (c as int + 32) as char else c
  }

  /** Python's str.lower restricted to ASCII letters. */
  function Lower(s: string): (r: string)
    ensures |r| == |s|
    ensures forall i :: 0 <= i < |s| ==> r[i] == LowerChar(s[i])
  {
    if s == [] then [] else [LowerChar(s[0])] + Lower(s[1..])
  }

  predicate NoUpperCase(s: string)
  {
    forall i :: 0 <= i < |s| ==> !('A' <= s[i] <= 'Z')
  }

  /** An explicit name counts only when present and non-empty (Python's `or`). */
  predicate HasExplicitName(entry: CheckEntry)
  {
    entry.name.Some? && entry.name.value != ""
  }

  /** The derived name of a check: its explicit name, else "<plugin>_<type>" lower-cased. */
  function CheckName(entry: CheckEntry, plugin: string): (r: string)
    ensures HasExplicitName(entry) ==> r == entry.name.value
    ensures r != ""
  {
    if HasExplicitName(entry) then entry.name.value
    else Lower(plugin + "_" + entry.checkType)
  }

  lemma {:induction false} LowerConcat(a: string, b: string)
    ensures Lower(a + b) == Lower(a) + Lower(b)
  {
    assert forall i :: 0 <= i < |a| ==> (a + b)[i] == a[i];
    assert forall i :: |a| <= i < |a| + |b| ==> (a + b)[i] == b[i - |a|];
  }

  lemma LowerIsLowerCase(s: string)
    ensures NoUpperCase(Lower(s))
    ensures Lower(Lower(s)) == Lower(s)
  {
  }

  /**
   * Without an explicit name, the derived name is the lower-cased plugin name,
   * an underscore and the lower-cased check type, with no upper-case letter.
   */
  lemma DerivedName(entry: CheckEntry, plugin: string)
    requires !HasExplicitName(entry)
    ensures CheckName(entry, plugin) == Lower(plugin) + "_" + Lower(entry.checkType)
    ensures CheckName(entry, plugin)[|plugin|] == '_'
    ensures NoUpperCase(CheckName(entry, plugin))
  {
    var joined := plugin + "_" + entry.checkType;
    LowerConcat(plugin, "_");
    LowerConcat(plugin + "_", entry.checkType);
    assert Lower("_") == "_";
    assert joined[|plugin|] == '_';
    LowerIsLowerCase(joined);
  }

  /** A present but empty name falls back to the derived one. */
  lemma EmptyNameFallsBack(plugin: string, checkType: string)
    ensures CheckName(CheckEntry(checkType, Some("")), plugin) == CheckName(CheckEntry(checkType, None), plugin)
    ensures CheckName(CheckEntry(checkType, None), plugin) == Lower(plugin + "_" + checkType)
  {
  }
}
