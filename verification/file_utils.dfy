/** The upload helpers: the stem of an uploaded file's name, and the upload part filter. */
module FileUtils {
  import opened Wrappers
  import opened Strings

  /**
   * `getNameFromFullName` as written: split on '.', drop the last piece, and
   * join the rest with the empty string. The result has no dot and is never
   * longer than the name; a name without a dot gives the empty string.
   */
  function GetNameFromFullName(filename: string): (r: string)
    ensures '.' !in r
    ensures |r| <= |filename|
    ensures '.' !in filename ==> r == ""
  {
    var parts := SplitOnChar(filename, '.');
    var kept := parts[..|parts| - 1];
    JoinEmptyOmits(kept, '.');
    JoinLength(kept, "");
    JoinLength(parts, ".");
    TotalLengthOfPrefix(parts, |parts| - 1);
    JoinAllButLast(parts, "")
  }

  /** Every piece but the last, joined with `sep`. */
  function JoinAllButLast(parts: seq<string>, sep: string): string
    requires |parts| >= 1
  {
    Join(parts[..|parts| - 1], sep)
  }

  /**
   * For a name made of dot-free pieces joined by dots, the result is every
   * piece but the last run together without separators.
   */
  lemma NameDropsLastPieceAndDots(parts: seq<string>)
    requires |parts| >= 1
    requires forall k :: 0 <= k < |parts| ==> '.' !in parts[k]
    ensures GetNameFromFullName(Join(parts, ".")) == Join(parts[..|parts| - 1], "")
  {
    var name := Join(parts, ".");
    SplitOnCharOfJoin(parts, '.');
    assert SplitOnChar(name, '.') == parts;
    assert GetNameFromFullName(name) == JoinAllButLast(parts, "");
  }

  /** A name with a single dot yields the part before it. */
  lemma SingleDotGivesStem(stem: string, ext: string)
    requires '.' !in stem && '.' !in ext
    ensures GetNameFromFullName(stem + "." + ext) == stem
  {
    assert Join([stem, ext], ".") == stem + "." + ext;
    NameDropsLastPieceAndDots([stem, ext]);
    assert [stem, ext][..1] == [stem];
  }

  /** Three pieces joined by dots. */
  lemma JoinThree(a: string, b: string, ext: string)
    ensures Join([a, b, ext], ".") == a + "." + b + "." + ext
  {
    assert [a, b, ext][1..] == [b, ext];
    assert [b, ext][1..] == [ext];
    assert Join([b, ext], ".") == b + "." + ext;
  }

  /** Inner dots are lost: a name shaped like "a.b.jpg" yields the two stems run together ("ab"). */
  lemma InnerDotsAreDropped(a: string, b: string, ext: string)
    requires '.' !in a && '.' !in b && '.' !in ext
    ensures GetNameFromFullName(a + "." + b + "." + ext) == a + b
  {
    JoinThree(a, b, ext);
    NameDropsLastPieceAndDots([a, b, ext]);
    assert [a, b, ext][..2] == [a, b];
  }

  /**
   * The stem as evidently intended: everything before the last dot, inner
   * dots kept. A name with a dot is its stem, a dot and a dot-free extension.
   */
  function StemOf(filename: string): (r: string)
    ensures |r| <= |filename|
    ensures '.' !in filename ==> r == ""
  {
    var parts := SplitOnChar(filename, '.');
    var n := |parts|;
    JoinLength(parts, ".");
    JoinLength(parts[..n - 1], ".");
    TotalLengthOfPrefix(parts, n - 1);
    JoinAllButLast(parts, ".")
  }

  /** The extension: the piece after the last dot. */
  function ExtensionOf(filename: string): (r: string)
    ensures '.' !in r
  {
    var parts := SplitOnChar(filename, '.');
    parts[|parts| - 1]
  }

  /** A name with a dot is its stem, a dot, and its extension. */
  lemma StemExtensionRoundTrip(filename: string)
    requires '.' in filename
    ensures filename == StemOf(filename) + "." + ExtensionOf(filename)
  {
    var parts := SplitOnChar(filename, '.');
    var n := |parts|;
    var front := parts[..n - 1];
    assert front + [parts[n - 1]] == parts;
    JoinSnoc(front, parts[n - 1], ".");
  }

  /** For a name made of dot-free pieces joined by dots, the stem is every piece but the last, dots kept. */
  lemma StemOfJoined(parts: seq<string>)
    requires |parts| >= 1
    requires forall k :: 0 <= k < |parts| ==> '.' !in parts[k]
    ensures StemOf(Join(parts, ".")) == Join(parts[..|parts| - 1], ".")
  {
    var name := Join(parts, ".");
    SplitOnCharOfJoin(parts, '.');
    assert SplitOnChar(name, '.') == parts;
    assert StemOf(name) == JoinAllButLast(parts, ".");
  }

  /** The corrected stem keeps inner dots: a name shaped like "a.b.jpg" has stem "a.b". */
  lemma StemKeepsInnerDots(a: string, b: string, ext: string)
    requires '.' !in a && '.' !in b && '.' !in ext
    ensures StemOf(a + "." + b + "." + ext) == a + "." + b
  {
    JoinThree(a, b, ext);
    StemOfJoined([a, b, ext]);
    assert [a, b, ext][..2] == [a, b];
    assert [a, b][1..] == [b];
  }

  /**
   * The upload part filter: a part is accepted only when it was sent in the
   * `image` field with a mimetype that mentions "image".
   */
  function UploadFilter(name: string, mimetype: Option<string>): (valid: bool)
    ensures valid <==>
      name == "image" && mimetype.Some? && exists pre, post :: Surrounds(mimetype.value, pre, "image", post)
  {
    match mimetype
    case None => false
    case Some(m) =>
      ContainsIffSurrounds(m, "image");
      name == "image" && Contains(m, "image")
  }

  /**
   * Every part in the `image` field whose mimetype has "image" somewhere in
   * it is accepted, and no part in another field or without a mimetype is.
   */
  lemma UploadFilterAccepts(name: string, pre: string, post: string)
    ensures UploadFilter("image", Some(pre + "image" + post))
    ensures name != "image" ==> !UploadFilter(name, Some(pre + "image" + post))
    ensures !UploadFilter(name, None)
  {
    var m := pre + "image" + post;
    assert m[|pre|..|pre| + 5] == "image";
    assert OccursAt(m, "image", |pre|);
  }
}
