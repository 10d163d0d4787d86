/** The search filter of the selection prompt: an item stays in the list while the
    typed text occurs in it, ignoring case. Case is folded for ASCII letters only. */
module Prompts {

  /** `unicode.ToLower` on the ASCII letters. */
  function LowerChar(c: char): char
  {
    if 'A' <= c <= 'Z' then (c as int + 32) as char else c
  }

  /** `unicode.ToUpper` on the ASCII letters. */
  function UpperChar(c: char): char
  {
    if 'a' <= c <= 'z' then (c as int - 32) as char else c
  }

  /** `strings.ToLower`. */
  function ToLower(s: string): string
  {
    seq(|s|, i requires 0 <= i < |s| => LowerChar(s[i]))
  }

  /** `strings.ToUpper`. */
  function ToUpper(s: string): string
  {
    seq(|s|, i requires 0 <= i < |s| => UpperChar(s[i]))
  }

  /** `sub` occurs in `s` at offset `i`. */
  predicate OccursAt(s: string, sub: string, i: int)
  {
    0 <= i <= |s| - |sub| && s[i..i + |sub|] == sub
  }

  /** `strings.Contains`: `sub` occurs in `s` at some offset. */
  predicate Contains(s: string, sub: string)
  {
    exists i :: 0 <= i <= |s| - |sub| && OccursAt(s, sub, i)
  }

  /** The `Searcher` of `SelectPrompt`: whether item `index` stays listed while
      `input` is typed. An index outside the list never matches. */
  predicate Searcher(items: seq<string>, input: string, index: int)
  {
    if index < 0 || index >= |items| then false
    else Contains(ToLower(items[index]), ToLower(input))
  }

  /** Lower-casing twice is lower-casing once, and lower-casing undoes upper-casing. */
  lemma LowerFolds(s: string)
    ensures ToLower(ToLower(s)) == ToLower(s)
    ensures ToLower(ToUpper(s)) == ToLower(s)
  {
  }

  /** Lower-casing commutes with taking a slice. */
  lemma LowerSlice(s: string, i: nat, j: nat)
    requires i <= j <= |s|
    ensures ToLower(s)[i..j] == ToLower(s[i..j])
  {
  }

  /** Before anything is typed, every item is listed. */
  lemma EmptyInputListsAll(items: seq<string>, index: int)
    requires 0 <= index < |items|
    ensures Searcher(items, "", index)
  {
    assert OccursAt(ToLower(items[index]), ToLower(""), 0);
  }

  /** An item that contains the typed text verbatim is listed. */
  lemma VerbatimListed(items: seq<string>, input: string, index: int)
    requires 0 <= index < |items| && Contains(items[index], input)
    ensures Searcher(items, input, index)
  {
    var item := items[index];
    var i :| 0 <= i <= |item| - |input| && OccursAt(item, input, i);
    LowerSlice(item, i, i + |input|);
    assert OccursAt(ToLower(item), ToLower(input), i);
  }

  /** Only items at least as long as the typed text are listed. */
  lemma ListedIsLongEnough(items: seq<string>, input: string, index: int)
    requires Searcher(items, input, index)
    ensures 0 <= index < |items| && |input| <= |items[index]|
  {
  }

  /** The filter ignores the case of what is typed and of the items. */
  lemma SearchIgnoresCase(items: seq<string>, input: string, index: int)
    requires 0 <= index < |items|
    ensures Searcher(items, ToUpper(input), index) == Searcher(items, input, index)
    ensures Searcher(items[index := ToUpper(items[index])], input, index) == Searcher(items, input, index)
  {
    LowerFolds(input);
    LowerFolds(items[index]);
  }
}
