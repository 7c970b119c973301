/**
 * PathAndRename, the upload_to callable each app defines for its image fields:
 * the uploaded file keeps only its extension and gets a random 10-hex-digit name.
 * The member and review copies ignore the instance; the partner and community
 * copies put the file in a directory named after the owning partner or member id.
 */
module Uploads {
  import Text

  /** uuid.uuid4().hex: 32 lower-case hexadecimal digits (the randomness is a parameter). */
  predicate IsUuidHex(h: string) { |h| == 32 && Text.AllLowerHex(h) }

  /** The extension kept from the uploaded name: filename.split(".")[-1]. */
  function Extension(filename: string): string { Text.LastSegment(filename, '.') }

  /** f"{uid}.{ext}" with uid = uuid4().hex[:10]. */
  function RenamedFilename(uuidHex: string, filename: string): string
    requires IsUuidHex(uuidHex)
  {
    uuidHex[..10] + "." + Extension(filename)
  }

  lemma ConcatAssoc(a: string, b: string, c: string)
    ensures a + (b + c) == a + b + c
  {
  }

  /** Joining a sub-path that ends in '/' with a name that starts with a digit. */
  lemma RelativeJoin(subPath: string, dir: string, uid: string, ext: string)
    requires |subPath| > 0 && subPath[|subPath| - 1] == '/'
    requires |dir| > 0 && Text.IsDigit(dir[0])
    ensures Text.JoinPath(subPath, dir + "/" + (uid + "." + ext)) == subPath + dir + "/" + uid + "." + ext
  {
    var name := uid + "." + ext;
    var rel := dir + "/" + name;
    assert rel[0] == dir[0];
    var x := subPath + dir + "/";
    ConcatAssoc(subPath, dir + "/", name);
    ConcatAssoc(subPath, dir, "/");
    ConcatAssoc(x, uid + ".", ext);
    ConcatAssoc(x, uid, ".");
  }

  /** PathAndRename.__call__ of the member and review apps. */
  function UploadPath(subPath: string, uuidHex: string, filename: string): string
    requires IsUuidHex(uuidHex)
  {
    Text.JoinPath(subPath, RenamedFilename(uuidHex, filename))
  }

  /** PathAndRename.__call__ of the partner and community apps. */
  function OwnedUploadPath(subPath: string, ownerId: nat, uuidHex: string, filename: string): string
    requires IsUuidHex(uuidHex)
  {
    Text.JoinPath(subPath, Text.NatToString(ownerId) + "/" + RenamedFilename(uuidHex, filename))
  }

  /**
   * The stored path is subPath, a separator when subPath lacks one, ten hex digits,
   * a dot and the extension; the extension holds no dot and is all of filename
   * when filename has none.
   */
  lemma UploadPathShape(subPath: string, uuidHex: string, filename: string)
    requires IsUuidHex(uuidHex)
    ensures var r := UploadPath(subPath, uuidHex, filename);
            var ext := Extension(filename);
            var n := |r| - 11 - |ext|;
            && |subPath| <= n <= |subPath| + 1
            && r[..|subPath|] == subPath
            && (subPath == [] || subPath[|subPath| - 1] == '/' ==> n == |subPath|)
            && r[n..n + 10] == uuidHex[..10]
            && r[n + 10] == '.' && r[n + 11..] == ext
    ensures '.' !in Extension(filename)
    ensures '.' !in filename ==> Extension(filename) == filename
  {
    assert Text.IsLowerHex(uuidHex[0]);
    NameJoin(subPath, uuidHex[..10], Extension(filename));
    if '.' !in filename {
      Text.LastSegmentWithoutSep(filename, '.');
    }
  }

  /** Joining a sub-path with uid + "." + ext, where uid does not start with '/'. */
  lemma NameJoin(subPath: string, uid: string, ext: string)
    requires |uid| == 10 && uid[0] != '/'
    ensures var r := Text.JoinPath(subPath, uid + "." + ext);
            var n := |r| - 11 - |ext|;
            && |subPath| <= n <= |subPath| + 1
            && r[..|subPath|] == subPath
            && (subPath == [] || subPath[|subPath| - 1] == '/' ==> n == |subPath|)
            && r[n..n + 10] == uid
            && r[n + 10] == '.' && r[n + 11..] == ext
  {
    var name := uid + "." + ext;
    assert name[0] == uid[0];
    var sep: string := if subPath == [] || subPath[|subPath| - 1] == '/' then [] else "/";
    var r := Text.JoinPath(subPath, name);
    assert r == subPath + sep + name;
    var n := |subPath| + |sep|;
    assert r[..|subPath|] == subPath;
    assert r[n..] == name;
    assert r[n..n + 10] == name[..10] == uid;
    assert r[n + 10] == name[10] == '.';
    assert r[n + 11..] == name[11..] == ext;
  }

  /**
   * For a sub-path ending in '/', as every call site's is, the stored path is
   * subPath + "<owner id>/" + ten hex digits + "." + extension.
   */
  lemma OwnedUploadPathShape(subPath: string, ownerId: nat, uuidHex: string, filename: string)
    requires IsUuidHex(uuidHex)
    requires |subPath| > 0 && subPath[|subPath| - 1] == '/'
    ensures OwnedUploadPath(subPath, ownerId, uuidHex, filename)
         == subPath + Text.NatToString(ownerId) + "/" + uuidHex[..10] + "." + Extension(filename)
    ensures '.' !in Extension(filename)
  {
    var dir := Text.NatToString(ownerId);
    assert Text.IsDigit(dir[0]);
    RelativeJoin(subPath, dir, uuidHex[..10], Extension(filename));
  }
}
