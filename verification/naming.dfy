/** The name under which an uploaded photograph is stored: a fresh uuid, a
    dot, and the extension taken from the client's file name. */
module Naming {
  import opened Text

  /** Extension used when the client's file name has no dot. */
  const DefaultExtension := "jpg"

  /** `ext` is the tail of `s` that directly follows a dot. */
  predicate FollowsDot(ext: string, s: string)
  {
    |ext| < |s| && s[|s| - |ext| - 1] == '.' && s[|s| - |ext|..] == ext
  }

  /** `filename.split('.')[-1] if '.' in filename else 'jpg'`: the text after
      the last dot, or the default when there is no dot. */
  function Extension(filename: string): (ext: string)
    ensures '.' !in ext
    ensures '.' !in filename ==> ext == DefaultExtension
    ensures '.' in filename ==> FollowsDot(ext, filename)
  {
    if '.' in filename then
      var parts := Split(filename, '.');
      JoinEndsWithLast(parts, '.');
      JoinContainsSeparator(parts, '.');
      Last(parts)
    else
      DefaultExtension
  }

  /** The three facts of Extension's contract single out the text after the
      LAST dot: no other dot-free tail that follows a dot exists. */
  lemma {:induction false} ExtensionIsAfterLastDot(filename: string, ext: string)
    requires '.' !in ext && FollowsDot(ext, filename)
    ensures ext == Extension(filename)
  {
    assert filename[|filename| - |ext| - 1] in filename;
  }

  /** `str(uuid.uuid4())`: 36 characters, lower-case hex digits in groups of
      8-4-4-4-12, version digit 4 and variant digit 8, 9, a or b. */
  predicate IsUuid4(u: string)
  {
    && |u| == 36
    && (forall i :: 0 <= i < 36 ==>
          if i == 8 || i == 13 || i == 18 || i == 23 then u[i] == '-'
          else '0' <= u[i] <= '9' || 'a' <= u[i] <= 'f')
    && u[14] == '4'
    && u[19] in "89ab"
  }

  /** `f"{uuid}.{ext}"`. */
  function BlobName(uuid: string, ext: string): string
  {
    uuid + "." + ext
  }

  /** The blob name determines the uuid and the extension it was made from,
      so submissions with distinct uuids are stored under distinct names. */
  lemma BlobNameInjective(u1: string, ext1: string, u2: string, ext2: string)
    requires IsUuid4(u1) && IsUuid4(u2)
    requires BlobName(u1, ext1) == BlobName(u2, ext2)
    ensures u1 == u2 && ext1 == ext2
  {
    var name := BlobName(u1, ext1);
    assert name[..36] == u1 && name[..36] == u2;
    assert name[37..] == ext1 && name[37..] == ext2;
  }

  /** The stored blob keeps the extension it was given: deriving the
      extension again from the blob name gives it back. */
  lemma ExtensionOfBlobName(uuid: string, ext: string)
    requires '.' !in ext
    ensures Extension(BlobName(uuid, ext)) == ext
  {
    var name := BlobName(uuid, ext);
    assert name[|name| - |ext|..] == ext;
    ExtensionIsAfterLastDot(name, ext);
  }

  /** Two submissions of the same file under different uuids are stored
      under different blob names: identical submissions are not merged. */
  lemma NoDeduplication(u1: string, u2: string, filename: string)
    requires u1 != u2
    ensures BlobName(u1, Extension(filename)) != BlobName(u2, Extension(filename))
  {
    var name1, name2 := BlobName(u1, Extension(filename)), BlobName(u2, Extension(filename));
    if |u1| == |u2| {
      assert name1[..|u1|] == u1 && name2[..|u2|] == u2;
    } else {
      assert |name1| != |name2|;
    }
  }
}
