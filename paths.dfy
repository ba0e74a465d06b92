/**
 * The parts of `pathlib` the batch runner uses: a path as a folder and a
 * file name, and a name's `stem` and `suffix`.
 */
module Paths {
  import opened Text

  /** `Path(folder) / name`; how pathlib renders it as a string is not modelled. */
  datatype FilePath = FilePath(folder: string, name: string)

  /** `name.rfind(c)`: the last index holding `c`, or -1. */
  function RFind(s: string, c: char): (i: int)
    ensures -1 <= i < |s|
    ensures i >= 0 ==> s[i] == c
    ensures forall k :: i < k < |s| ==> s[k] != c
  {
    if s == [] then -1
    else if s[|s| - 1] == c then |s| - 1
    else RFind(s[..|s| - 1], c)
  }

  /**
   * `PurePath.suffix`: from the last dot on, provided that dot is neither
   * the first nor the last character of the name; otherwise empty.
   */
  function Suffix(name: string): string {
    var i := RFind(name, '.');
    if 0 < i < |name| - 1 then name[i..] else ""
  }

  /** `PurePath.stem`: the name without its suffix. */
  function Stem(name: string): string {
    var i := RFind(name, '.');
    if 0 < i < |name| - 1 then name[..i] else name
  }

  /** Stem and suffix split the name: putting them back together gives the name. */
  lemma StemSuffixSplit(name: string)
    ensures Stem(name) + Suffix(name) == name
    ensures Suffix(name) == "" || (|Suffix(name)| >= 2 && Suffix(name)[0] == '.' && '.' !in Suffix(name)[1..])
    ensures Suffix(name) != "" ==> Stem(name) != ""
  {
    var i := RFind(name, '.');
    if 0 < i < |name| - 1 {
      assert name[..i] + name[i..] == name;
      forall k | 1 <= k < |name[i..]| ensures name[i..][k] != '.' {
        assert name[i..][k] == name[i + k];
      }
    }
  }

  /**
   * A name made of a non-empty head and a dotted extension (one dot, at its
   * start, and at least one character after it) has that extension as its
   * suffix and the head as its stem.
   */
  lemma SuffixOfDotted(head: string, ext: string)
    requires head != []
    requires |ext| >= 2 && ext[0] == '.' && '.' !in ext[1..]
    ensures Suffix(head + ext) == ext
    ensures Stem(head + ext) == head
  {
    var name := head + ext;
    var i := RFind(name, '.');
    assert name[|head|] == '.';
    forall k | |head| < k < |name| ensures name[k] != '.' {
      assert name[k] == ext[1..][k - |head| - 1];
    }
    assert i == |head|;
    assert name[i..] == ext;
    assert name[..i] == head;
  }

  /**
   * A file name that ends with a dotted extension and is longer than it has
   * that extension as its suffix: the extension `glob` matched is the one
   * the output name keeps.
   */
  lemma SuffixOfMatch(name: string, ext: string)
    requires |ext| >= 2 && ext[0] == '.' && '.' !in ext[1..]
    requires EndsWith(name, ext) && |name| > |ext|
    ensures Suffix(name) == ext
    ensures Stem(name) == name[..|name| - |ext|]
  {
    var head := name[..|name| - |ext|];
    assert head + ext == name;
    SuffixOfDotted(head, ext);
  }
}
