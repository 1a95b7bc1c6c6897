/** Image identifiers: Cloudinary public ids such as
    `eleven-star/hero/hero-1` versus local paths such as
    `/images/hero/hero-1.webp`, and the rewriting between them. */
module Cloudinary {
  import opened Wrappers
  import opened Text

  /** The folder every public id of the site lives in. */
  const ProjectFolder := "eleven-star/"

  /** The folder local images are served from. */
  const LocalFolder := "/images/"

  /** `s` ends in `.` followed by `ext`, the letters matched ignoring ASCII case. */
  predicate EndsWithExtension(s: string, ext: string) {
    |s| >= |ext| + 1 && s[|s| - |ext| - 1] == '.' && Lower(s[|s| - |ext|..]) == ext
  }

  /** `s` ends in one of the image extensions the site strips. */
  predicate HasImageExtension(s: string) {
    || EndsWithExtension(s, "webp") || EndsWithExtension(s, "jpg") || EndsWithExtension(s, "jpeg")
    || EndsWithExtension(s, "png") || EndsWithExtension(s, "gif")
  }

  /** The image extensions the site strips, in lower case. */
  const ImageExtensions := {"webp", "jpg", "jpeg", "png", "gif"}

  /** How many characters `/\\.(webp|jpg|jpeg|png|gif)$/i` matches at the end of
      `s`: 5 for `.webp` and `.jpeg`, 4 for `.jpg`, `.png` and `.gif`, 0 when
      none of the extensions ends it. */
  function ExtensionLength(s: string): (n: nat)
    ensures n <= |s|
    ensures n == 5 <==> EndsWithExtension(s, "webp") || EndsWithExtension(s, "jpeg")
    ensures n == 4 <==> EndsWithExtension(s, "jpg") || EndsWithExtension(s, "png") || EndsWithExtension(s, "gif")
    ensures n == 0 <==> !HasImageExtension(s)
    ensures n != 0 ==> s[|s| - n] == '.'
  {
    ShortExcludesLong(s);
    if EndsWithExtension(s, "webp") then 5
    else if EndsWithExtension(s, "jpg") then 4
    else if EndsWithExtension(s, "jpeg") then 5
    else if EndsWithExtension(s, "png") then 4
    else if EndsWithExtension(s, "gif") then 4
    else 0
  }

  /** A dot four from the end rules out a four-letter extension, whose first
      letter would have to sit there. */
  lemma DotBeforeThreeLetters(u: string, ext: string)
    requires |ext| == 4 && ext[0] != '.'
    requires |u| >= 4 && u[|u| - 4] == '.'
    ensures !EndsWithExtension(u, ext)
  {
    if |u| >= 5 {
      var tail := u[|u| - 4..];
      LowerAt(tail);
      assert Lower(tail)[0] == LowerChar(tail[0]) == '.';
    }
  }

  /** A string ending in a three-letter extension does not end in a
      four-letter one, so the alternation has one match at most. */
  lemma ShortExcludesLong(s: string)
    ensures EndsWithExtension(s, "jpg") || EndsWithExtension(s, "png") || EndsWithExtension(s, "gif") ==>
      !EndsWithExtension(s, "webp") && !EndsWithExtension(s, "jpeg")
  {
    if EndsWithExtension(s, "jpg") || EndsWithExtension(s, "png") || EndsWithExtension(s, "gif") {
      assert s[|s| - 4] == '.';
      DotBeforeThreeLetters(s, "webp");
      DotBeforeThreeLetters(s, "jpeg");
    }
  }

  /** `s.replace(/\\.(webp|jpg|jpeg|png|gif)$/i, '')`: the trailing image
      extension and its dot removed, if there is one, and nothing else. */
  function StripExtension(s: string): (r: string)
    ensures EndsWithExtension(s, "webp") || EndsWithExtension(s, "jpeg") ==> r == s[..|s| - 5]
    ensures EndsWithExtension(s, "jpg") || EndsWithExtension(s, "png") || EndsWithExtension(s, "gif") ==>
      r == s[..|s| - 4]
    ensures !HasImageExtension(s) ==> r == s
  {
    s[..|s| - ExtensionLength(s)]
  }

  /** `base.<ext>` for any image extension, in any letter case, strips to
      `base`. */
  lemma StripImageExtension(base: string, ext: string)
    requires Lower(ext) in ImageExtensions
    ensures StripExtension(base + "." + ext) == base
  {
    var u := base + "." + ext;
    var e := Lower(ext);
    assert u[|u| - |ext| - 1] == '.' && u[|u| - |ext|..] == ext;
    assert EndsWithExtension(u, e);
    if |ext| == 4 {
      assert e == "webp" || e == "jpeg";
      assert u[..|u| - 5] == base;
    } else {
      assert e == "jpg" || e == "png" || e == "gif";
      assert u[..|u| - 4] == base;
    }
  }

  lemma EndsWithWebp(s: string)
    ensures EndsWithExtension(s + ".webp", "webp")
  {
    var t := s + ".webp";
    assert t[|t| - 5] == '.' && t[|t| - 4..] == "webp";
    assert Lower("webp") == "webp";
  }

  /** Whatever precedes `.webp` is what stripping leaves. */
  lemma StripWebp(s: string)
    ensures StripExtension(s + ".webp") == s
  {
    EndsWithWebp(s);
    assert (s + ".webp")[..|s + ".webp"| - 5] == s;
  }

  /** `getCloudinaryPublicId(path)`: a path that is neither absolute nor a URL
      is taken to be an id already and only loses its extension; any other
      loses its first `/images/` and its extension, and is put in the project
      folder. */
  function GetCloudinaryPublicId(path: string): (id: string)
    ensures !StartsWith(path, "/") && !StartsWith(path, "http") ==> id == StripExtension(path)
    ensures StartsWith(path, "/") || StartsWith(path, "http") ==>
      id == ProjectFolder + StripExtension(ReplaceFirst(path, LocalFolder, ""))
  {
    if StartsWith(path, ProjectFolder) then
      ProjectFolderTestRedundant(path);
      StripExtension(path)
    else if !StartsWith(path, "/") && !StartsWith(path, "http") then
      StripExtension(path)
    else
      ProjectFolder + StripExtension(ReplaceFirst(path, LocalFolder, ""))
  }

  /** The `startsWith('eleven-star/')` test adds nothing: such a path starts
      with neither `/` nor `http` anyway. */
  lemma ProjectFolderTestRedundant(path: string)
    requires StartsWith(path, ProjectFolder)
    ensures !StartsWith(path, "/") && !StartsWith(path, "http")
  {
    assert path[0] == 'e';
  }

  /** `isCloudinaryPublicId(path)` */
  predicate IsCloudinaryPublicId(path: string) {
    !StartsWith(path, "/") && !StartsWith(path, "http") && !StartsWith(path, "blob:")
  }

  /** Every public id `isCloudinaryPublicId` accepts is converted by dropping
      its extension alone, and every id in the project folder is accepted. */
  lemma PublicIdsOnlyLoseExtension(path: string)
    ensures IsCloudinaryPublicId(path) ==> GetCloudinaryPublicId(path) == StripExtension(path)
    ensures StartsWith(path, ProjectFolder) ==> IsCloudinaryPublicId(path)
  {
    if StartsWith(path, ProjectFolder) {
      ProjectFolderTestRedundant(path);
      assert path[0] == 'e';
    }
  }

  /** The two "is this an id" tests disagree on `blob:` URLs: the test says
      "not an id", but the conversion keeps it as one. */
  lemma BlobTestsDisagree(path: string)
    requires StartsWith(path, "blob:")
    ensures !IsCloudinaryPublicId(path)
    ensures GetCloudinaryPublicId(path) == StripExtension(path)
  {
    assert path[0] == 'b' by {
      assert path[..5] == "blob:";
    }
    assert !StartsWith(path, "/") by {
      assert path[..1] != "/";
    }
    assert !StartsWith(path, "http") by {
      assert path[..4][0] == path[0];
    }
  }

  /** Appending text that starts with a dot cannot make a path absolute or a
      URL. */
  lemma PlainPathExtended(base: string, t: string)
    requires !StartsWith(base, "/") && !StartsWith(base, "http")
    requires t != [] && t[0] == '.'
    ensures !StartsWith(base + t, "/") && !StartsWith(base + t, "http")
  {
    var u := base + t;
    if |base| >= 1 {
      assert u[..1] == base[..1];
    } else {
      assert u[0] == '.';
    }
    if |u| >= 4 {
      if |base| >= 4 {
        assert u[..4] == base[..4];
      } else {
        assert u[..4][|base|] == '.';
      }
    }
  }

  /** A local image path `/images/<rest>.<ext>`, for any image extension in
      any letter case, becomes the id `eleven-star/<rest>`. */
  lemma LocalImageToId(rest: string, ext: string)
    requires Lower(ext) in ImageExtensions
    ensures GetCloudinaryPublicId(LocalFolder + rest + "." + ext) == ProjectFolder + rest
  {
    var tail := rest + "." + ext;
    var path := LocalFolder + tail;
    assert LocalFolder + rest + "." + ext == path;
    assert StartsWith(path, "/") by {
      assert path[..1] == "/";
    }
    ReplaceFirstAtStart(tail, LocalFolder, "");
    assert ReplaceFirst(path, LocalFolder, "") == tail;
    StripImageExtension(rest, ext);
    assert GetCloudinaryPublicId(path) == ProjectFolder + StripExtension(tail);
  }

  /** A local `.webp` image path becomes the id in the project folder. */
  lemma LocalPathToId(rest: string)
    ensures GetCloudinaryPublicId(LocalFolder + rest + ".webp") == ProjectFolder + rest
  {
    assert Lower("webp") == "webp";
    LocalImageToId(rest, "webp");
    assert LocalFolder + rest + "." + "webp" == LocalFolder + rest + ".webp";
  }

  /** An absolute path outside `/images/` keeps its directories: only the
      extension goes and the project folder is put in front. */
  lemma AbsolutePathOutsideImages(path: string)
    requires StartsWith(path, "/") && !Contains(path, LocalFolder)
    ensures GetCloudinaryPublicId(path) == ProjectFolder + StripExtension(path)
  {
  }

  /** An id in the project folder without an extension is returned unchanged. */
  lemma ProjectIdUnchanged(path: string)
    requires StartsWith(path, ProjectFolder) && !HasImageExtension(path)
    ensures GetCloudinaryPublicId(path) == path
  {
    ProjectFolderTestRedundant(path);
  }

  /** The documented example of a local path: `/images/hero/hero-1.webp`
      becomes `eleven-star/hero/hero-1`. */
  lemma LocalPathExample(rest: string)
    requires rest == "hero/hero-1"
    ensures GetCloudinaryPublicId(LocalFolder + rest + ".webp") == ProjectFolder + rest
  {
    LocalPathToId(rest);
  }

  /** The documented example of an id that is returned unchanged. */
  lemma ProjectIdExample(id: string)
    requires id == "eleven-star/hero/hero-1"
    ensures GetCloudinaryPublicId(id) == id
  {
    assert StartsWith(id, ProjectFolder);
    assert id[|id| - 6..] == "hero-1";
    assert !HasImageExtension(id);
    ProjectIdUnchanged(id);
  }

  /** Only the last extension goes: for `x.png.webp` the id is `x.png`. */
  lemma OnlyLastExtension(base: string, ext: string)
    requires !StartsWith(base, "/") && !StartsWith(base, "http")
    requires Lower(ext) in ImageExtensions
    ensures GetCloudinaryPublicId(base + "." + ext) == base
  {
    PlainPathExtended(base, "." + ext);
    assert base + "." + ext == base + ("." + ext);
    StripImageExtension(base, ext);
  }

  /** Extensions match in any letter case: `.WEBP` goes like `.webp`. */
  lemma UpperCaseExtension(s: string)
    ensures StripExtension(s + ".WEBP") == s
  {
    var t := s + ".WEBP";
    assert t[|t| - 5] == '.' && t[|t| - 4..] == "WEBP";
    assert Lower("WEBP") == "webp";
    assert t[..|t| - 5] == s;
  }

  /** Extensions match in any letter case: `.Jpg` goes like `.jpg`. */
  lemma MixedCaseExtension(s: string)
    ensures StripExtension(s + ".Jpg") == s
  {
    var u := s + ".Jpg";
    assert u[|u| - 4] == '.' && u[|u| - 3..] == "Jpg";
    assert Lower("Jpg") == "jpg";
    assert EndsWithExtension(u, "jpg");
    assert u[..|u| - 4] == s;
  }

  // ---------------------------------------------------------------------------
  // Configuration

  /** `cloudinaryConfig.cloudName`: the environment value, or `''`. */
  function CloudName(env: Option<string>): string {
    env.GetOr("")
  }

  /** `isCloudinaryEnabled()` */
  predicate IsCloudinaryEnabled(cloudName: string) {
    cloudName != ""
  }

  /** `getImageSrc(localPath)` */
  function GetImageSrc(cloudName: string, localPath: string): (src: string)
    ensures IsCloudinaryEnabled(cloudName) ==> src == GetCloudinaryPublicId(localPath)
    ensures !IsCloudinaryEnabled(cloudName) ==> src == localPath
  {
    if IsCloudinaryEnabled(cloudName) then GetCloudinaryPublicId(localPath) else localPath
  }

  /** Cloudinary is enabled exactly when the cloud-name variable is set and non-empty. */
  lemma EnabledIffCloudNameSet(env: Option<string>)
    ensures IsCloudinaryEnabled(CloudName(env)) <==> env.Some? && env.value != ""
  {
  }
}
