/**
 * The tag list editor: a list of tags owned by the parent (changed only through
 * `onChange`) and the pending text of the input box, owned by the editor.
 * Each handler is a pure function from the current list and input to what the
 * handler hands to `onChange` (if it calls it) and the new input text.
 */
module TagsInput {

  datatype Option<T> = None | Some(value: T)

  /** The effect of one handler call: the list passed to `onChange`, if called, and the new input text. */
  datatype Effect = Effect(onChange: Option<seq<string>>, input: string)

  /** The list the parent holds after the effect: the one handed to `onChange`, or the old one. */
  function TagsAfter(tags: seq<string>, e: Effect): seq<string> {
    match e.onChange
    case Some(t) => t
    case None => tags
  }

  // ---------------------------------------------------------------------------
  // String trimming
  // ---------------------------------------------------------------------------

  /**
   * The characters String.prototype.trim strips: the ECMAScript WhiteSpace
   * characters (tab, vertical tab, form feed, the byte order mark and the Unicode
   * space separators) and the LineTerminator characters.
   */
  predicate IsTrimmable(c: char) {
    c == '\t' || c == '\n' || c == '\U{000B}' || c == '\U{000C}' || c == '\r' || c == ' '
    || c == '\U{00A0}' || c == '\U{1680}' || ('\U{2000}' <= c <= '\U{200A}')
    || c == '\U{2028}' || c == '\U{2029}' || c == '\U{202F}' || c == '\U{205F}'
    || c == '\U{3000}' || c == '\U{FEFF}'
  }

  /** Where the leading whitespace of `s[from..]` ends: the first non-trimmable position at or after `from`, or `|s|`. */
  function LeadingEnd(s: string, from: nat): (n: nat)
    requires from <= |s|
    ensures from <= n <= |s|
    ensures forall k :: from <= k < n ==> IsTrimmable(s[k])
    ensures n == |s| || !IsTrimmable(s[n])
    decreases |s| - from
  {
    if from < |s| && IsTrimmable(s[from]) then LeadingEnd(s, from + 1) else from
  }

  /** Where the trailing whitespace of `s[lo..upto]` starts: just after the last non-trimmable position, or `lo`. */
  function TrailingStart(s: string, lo: nat, upto: nat): (m: nat)
    requires lo <= upto <= |s|
    ensures lo <= m <= upto
    ensures forall k :: m <= k < upto ==> IsTrimmable(s[k])
    ensures m == lo || !IsTrimmable(s[m - 1])
    decreases upto - lo
  {
    if lo < upto && IsTrimmable(s[upto - 1]) then TrailingStart(s, lo, upto - 1) else upto
  }

  /** `r` is `s` from position `i` on, with only trimmable characters cut off before and after it. */
  predicate StripsOnlyEnds(s: string, r: string, i: int) {
    && 0 <= i <= |s| - |r| && r == s[i..i + |r|]
    && (forall k :: 0 <= k < i ==> IsTrimmable(s[k]))
    && (forall k :: i + |r| <= k < |s| ==> IsTrimmable(s[k]))
  }

  /**
   * String.prototype.trim: the input with only whitespace removed, and only at
   * its two ends; what is kept starts where the leading whitespace ends.
   */
  function Trim(s: string): (r: string)
    ensures StripsOnlyEnds(s, r, LeadingEnd(s, 0))
    ensures r == [] || (!IsTrimmable(r[0]) && !IsTrimmable(r[|r| - 1]))
    ensures r == [] <==> forall k :: 0 <= k < |s| ==> IsTrimmable(s[k])
  {
    var i := LeadingEnd(s, 0);
    s[i..TrailingStart(s, i, |s|)]
  }

  /** Nothing is left to trim: `s` is empty or neither of its ends is whitespace. */
  predicate Trimmed(s: string) {
    s == [] || (!IsTrimmable(s[0]) && !IsTrimmable(s[|s| - 1]))
  }

  /** Trimming leaves a string unchanged exactly when it is already trimmed. */
  lemma TrimFixesExactlyTrimmed(s: string)
    ensures Trim(s) == s <==> Trimmed(s)
  {
    if Trimmed(s) && s != [] {
      assert LeadingEnd(s, 0) == 0;
      assert TrailingStart(s, 0, |s|) == |s|;
      assert s[0..|s|] == s;
    }
  }

  /** Trimming a trimmed string changes nothing. */
  lemma TrimIdempotent(s: string)
    ensures Trim(Trim(s)) == Trim(s)
  {
    TrimFixesExactlyTrimmed(Trim(s));
  }

  // ---------------------------------------------------------------------------
  // The handlers
  // ---------------------------------------------------------------------------

  /**
   * A keydown in the input box. Enter with non-blank input adds the trimmed
   * input unless the list already holds it, and empties the box either way;
   * Backspace on an empty box drops the last tag; any other key, or the guards
   * failing, does nothing.
   */
  function HandleKeyDown(tags: seq<string>, input: string, key: string): (e: Effect)
    ensures e.onChange.Some? ==>
              || (key == "Enter" && Trim(input) != "" && Trim(input) !in tags
                  && e.onChange.value == tags + [Trim(input)])
              || (key == "Backspace" && input == "" && |tags| > 0
                  && e.onChange.value == tags[..|tags| - 1])
    ensures e.input == input || (key == "Enter" && Trim(input) != "" && e.input == "")
  {
    if key == "Enter" && Trim(input) != "" then
      var tag := Trim(input);
      Effect(if tag !in tags then Some(tags + [tag]) else None, "")
    else if key == "Backspace" && input == "" && |tags| > 0 then
      Effect(Some(tags[..|tags| - 1]), input)
    else
      Effect(None, input)
  }

  /** The list without the tag at `index`, keeping the others in order (a filter on position). */
  function RemoveTag(tags: seq<string>, index: int): (r: seq<string>)
    ensures 0 <= index < |tags| ==> r == tags[..index] + tags[index + 1..]
    ensures !(0 <= index < |tags|) ==> r == tags
    decreases |tags|
  {
    if tags == [] then []
    else (if index == 0 then [] else [tags[0]]) + RemoveTag(tags[1..], index - 1)
  }

  // ---------------------------------------------------------------------------
  // Properties of the handlers
  // ---------------------------------------------------------------------------

  /** No tag occurs twice. */
  predicate Distinct(tags: seq<string>) {
    forall i, j :: 0 <= i < j < |tags| ==> tags[i] != tags[j]
  }

  /** Every tag is non-empty and has nothing left to trim. */
  predicate AllTrimmed(tags: seq<string>) {
    forall i :: 0 <= i < |tags| ==> tags[i] != "" && Trimmed(tags[i])
  }

  /** Enter with a new, non-blank entry appends its trimmed text and empties the box. */
  lemma EnterAddsNewTag(tags: seq<string>, input: string)
    requires Trim(input) != "" && Trim(input) !in tags
    ensures HandleKeyDown(tags, input, "Enter") == Effect(Some(tags + [Trim(input)]), "")
    ensures |TagsAfter(tags, HandleKeyDown(tags, input, "Enter"))| == |tags| + 1
  {
  }

  /** Enter with an entry already in the list leaves the list alone (no `onChange`) but still empties the box. */
  lemma EnterIgnoresDuplicate(tags: seq<string>, input: string)
    requires Trim(input) != "" && Trim(input) in tags
    ensures HandleKeyDown(tags, input, "Enter") == Effect(None, "")
  {
  }

  /** Enter with an empty or blank box changes neither the list nor the box. */
  lemma EnterIgnoresBlankInput(tags: seq<string>, input: string)
    requires forall k :: 0 <= k < |input| ==> IsTrimmable(input[k])
    ensures HandleKeyDown(tags, input, "Enter") == Effect(None, input)
  {
  }

  /** Backspace on an exactly empty box drops the last tag; with any text (even blanks) or no tags it does nothing. */
  lemma BackspaceDropsLastTag(tags: seq<string>, input: string)
    ensures input == "" && |tags| > 0 ==>
              HandleKeyDown(tags, input, "Backspace") == Effect(Some(tags[..|tags| - 1]), "")
    ensures input != "" || tags == [] ==>
              HandleKeyDown(tags, input, "Backspace") == Effect(None, input)
  {
  }

  /** Keys other than Enter and Backspace never change the list or the box. */
  lemma OtherKeysDoNothing(tags: seq<string>, input: string, key: string)
    requires key != "Enter" && key != "Backspace"
    ensures HandleKeyDown(tags, input, key) == Effect(None, input)
  {
  }

  /** Whatever the key, a list without duplicates has none afterwards, and holds only trimmed, non-empty tags if it did. */
  lemma KeyDownKeepsTagsWellFormed(tags: seq<string>, input: string, key: string)
    ensures Distinct(tags) ==> Distinct(TagsAfter(tags, HandleKeyDown(tags, input, key)))
    ensures AllTrimmed(tags) ==> AllTrimmed(TagsAfter(tags, HandleKeyDown(tags, input, key)))
  {
    var e := HandleKeyDown(tags, input, key);
    if e.onChange.Some? {
      if key == "Enter" && Trim(input) != "" && Trim(input) !in tags {
        AppendKeepsTagsWellFormed(tags, Trim(input));
      } else {
        DropLastKeepsTagsWellFormed(tags);
      }
    }
  }

  /** Appending a new, non-empty, trimmed tag keeps the list free of duplicates and of untrimmed tags. */
  lemma AppendKeepsTagsWellFormed(tags: seq<string>, tag: string)
    requires tag !in tags && tag != "" && Trimmed(tag)
    ensures Distinct(tags) ==> Distinct(tags + [tag])
    ensures AllTrimmed(tags) ==> AllTrimmed(tags + [tag])
  {
    var after := tags + [tag];
    assert after[|tags|] == tag;
    assert forall i :: 0 <= i < |tags| ==> after[i] == tags[i] && tags[i] in tags;
  }

  /** Dropping the last tag keeps the list free of duplicates and of untrimmed tags. */
  lemma DropLastKeepsTagsWellFormed(tags: seq<string>)
    requires |tags| > 0
    ensures Distinct(tags) ==> Distinct(tags[..|tags| - 1])
    ensures AllTrimmed(tags) ==> AllTrimmed(tags[..|tags| - 1])
  {
  }

  /** Removing the tag at an in-range position shortens the list by one and takes out exactly that tag. */
  lemma RemoveTagTakesOutOne(tags: seq<string>, index: int)
    requires 0 <= index < |tags|
    ensures |RemoveTag(tags, index)| == |tags| - 1
    ensures multiset(RemoveTag(tags, index)) + multiset{tags[index]} == multiset(tags)
  {
    var r := RemoveTag(tags, index);
    assert r == tags[..index] + tags[index + 1..];
    MultisetWithout(tags, index);
  }

  lemma MultisetWithout<T>(s: seq<T>, i: nat)
    requires i < |s|
    ensures multiset(s[..i] + s[i + 1..]) + multiset{s[i]} == multiset(s)
  {
    assert s == s[..i] + [s[i]] + s[i + 1..];
  }

  /** Removing a tag keeps the list free of duplicates and of untrimmed tags. */
  lemma RemoveTagKeepsTagsWellFormed(tags: seq<string>, index: int)
    ensures Distinct(tags) ==> Distinct(RemoveTag(tags, index))
    ensures AllTrimmed(tags) ==> AllTrimmed(RemoveTag(tags, index))
  {
    if 0 <= index < |tags| {
      var r := RemoveTag(tags, index);
      assert r == tags[..index] + tags[index + 1..];
      assert |r| == |tags| - 1;
      assert forall k :: 0 <= k < |r| ==> r[k] == tags[if k < index then k else k + 1];
    }
  }

}
