/** The checkpoint store (main.py:37-46): a small text file that holds the
    index of the last completed sitemap section. Loading strips surrounding
    whitespace and accepts only a digit string; anything else, and a
    missing file, reads as 0. Saving overwrites the file with `str(index)`. */
module Checkpoint {
  import opened Wrappers
  import opened Decimal
  import opened Effects

  /** Python's `str.isspace` for one character: the characters that
      `str.strip()` removes. */
  predicate IsSpace(c: char) {
    var k := c as int;
    (0x09 <= k <= 0x0D) || (0x1C <= k <= 0x20) || k == 0x85 || k == 0xA0 ||
    k == 0x1680 || (0x2000 <= k <= 0x200A) || k == 0x2028 || k == 0x2029 ||
    k == 0x202F || k == 0x205F || k == 0x3000
  }

  predicate AllSpace(s: string) {
    forall i :: 0 <= i < |s| ==> IsSpace(s[i])
  }

  /** `s.lstrip()`: the longest suffix of `s` that does not start with whitespace. */
  function StripLeft(s: string): (r: string)
    ensures |r| <= |s| && r == s[|s| - |r|..]
    ensures AllSpace(s[..|s| - |r|])
    ensures r != [] ==> !IsSpace(r[0])
  {
    if s != [] && IsSpace(s[0]) then
      var r := StripLeft(s[1..]);
      assert s[..|s| - |r|] == [s[0]] + s[1..][..|s| - 1 - |r|];
      r
    else s
  }

  /** `s.rstrip()`: the longest prefix of `s` that does not end with whitespace. */
  function StripRight(s: string): (r: string)
    ensures |r| <= |s| && r == s[..|r|]
    ensures AllSpace(s[|r|..])
    ensures r != [] ==> !IsSpace(r[|r| - 1])
  {
    if s != [] && IsSpace(s[|s| - 1]) then
      var r := StripRight(s[..|s| - 1]);
      assert s[|r|..] == s[..|s| - 1][|r|..] + [s[|s| - 1]];
      r
    else s
  }

  /** `s.strip()`. */
  function Strip(s: string): (r: string)
    ensures r == [] || (!IsSpace(r[0]) && !IsSpace(r[|r| - 1]))
  {
    StripRight(StripLeft(s))
  }

  /** Stripping removes exactly the whitespace around the text and nothing else. */
  lemma {:induction false} StripSurrounded(pre: string, t: string, post: string)
    requires AllSpace(pre) && AllSpace(post)
    requires t == [] || (!IsSpace(t[0]) && !IsSpace(t[|t| - 1]))
    ensures Strip(pre + t + post) == t
  {
    if t == [] {
      assert AllSpace(pre + t + post);
    } else {
      StripLeftSpace(pre, t + post);
      assert pre + t + post == pre + (t + post);
      StripRightSpace(t, post);
    }
  }

  lemma {:induction false} StripLeftSpace(pre: string, s: string)
    requires AllSpace(pre)
    requires s == [] || !IsSpace(s[0])
    ensures StripLeft(pre + s) == s
  {
    if pre != [] {
      assert (pre + s)[1..] == pre[1..] + s;
      StripLeftSpace(pre[1..], s);
    }
  }

  lemma {:induction false} StripRightSpace(t: string, post: string)
    requires AllSpace(post)
    requires t == [] || !IsSpace(t[|t| - 1])
    ensures StripRight(t + post) == t
  {
    if post != [] {
      var s := t + post;
      assert s[..|s| - 1] == t + post[..|post| - 1];
      StripRightSpace(t, post[..|post| - 1]);
    } else {
      assert t + post == t;
    }
  }

  /** `load_checkpoint()`: the content of the file (None when it does not
      exist) read as a section index. */
  function LoadCheckpoint(content: Option<string>): (index: nat)
    ensures content.None? ==> index == 0
    ensures index != 0 ==> content.Some? && IsDigitString(Strip(content.value))
  {
    match content
    case None => 0
    case Some(text) => DigitsOrZero(Strip(text))
  }

  /** What `save_checkpoint(index)` writes. */
  function SavedText(index: nat): (text: string)
    ensures IsCanonical(text)
  {
    Show(index)
  }

  /** Saving an index and loading it again gives the same index. */
  lemma LoadAfterSave(index: nat)
    ensures LoadCheckpoint(Some(SavedText(index))) == index
  {
    var s := Show(index);
    StripSurrounded([], s, []);
    assert [] + s + [] == s;
    ValueOfShow(index);
  }

  /** A saved index survives whitespace added around it (an editor's
      trailing newline, say): `strip()` removes it before the digit test. */
  lemma LoadIgnoresSurroundingSpace(pre: string, index: nat, post: string)
    requires AllSpace(pre) && AllSpace(post)
    ensures LoadCheckpoint(Some(pre + SavedText(index) + post)) == index
  {
    var s := Show(index);
    assert !IsSpace(s[0]) && !IsSpace(s[|s| - 1]);
    StripSurrounded(pre, s, post);
    ValueOfShow(index);
  }

  /** The file that holds the checkpoint; `content` is None while it does
      not exist. Every save is recorded in `journal`. */
  class CheckpointFile {
    var content: Option<string>
    ghost const journal: Journal

    constructor (content: Option<string>, journal: Journal)
      ensures this.content == content && this.journal == journal
    {
      this.content := content;
      this.journal := journal;
    }

    /** `load_checkpoint()`. */
    method Load() returns (index: nat)
      ensures index == LoadCheckpoint(content)
      ensures content.None? ==> index == 0
    {
      match content {
        case None => index := 0;
        case Some(text) =>
          var s := Strip(text);
          index := if IsDigitString(s) then Value(s) else 0;
      }
    }

    /** `save_checkpoint(index)`: overwrite the file with `str(index)`; a
        later load gives `index` back. */
    method Save(index: nat)
      modifies this, journal
      ensures content == Some(SavedText(index))
      ensures LoadCheckpoint(content) == index
      ensures journal.events == old(journal.events) + [Saved(index)]
    {
      content := Some(Show(index));
      journal.events := journal.events + [Saved(index)];
      LoadAfterSave(index);
    }
  }
}
