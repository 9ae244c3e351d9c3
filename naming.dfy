/**
 * File names as the image converter handles them: ASCII lower-casing for the
 * case-insensitive suffix tests, commons-io's base-name rule, and the name of
 * the file a conversion writes.
 */
module Naming {

  /** A file: its parent directory ("" when it has none) and its name. */
  datatype Path = Path(dir: string, name: string)

  /** The two formats the dialog converts between. */
  datatype Format = Png | Jpeg

  /** The format selected by the dialog's "Format:" combo box: index 0 is "Jpeg -> PNG". */
  function TargetFormat(formatIndex: int): Format
  {
    if formatIndex == 0 then Png else Jpeg
  }

  /** The extension, dot included, of the file written for a format. */
  function TargetExtension(f: Format): (e: string)
    ensures |e| == 4 && e[0] == '.'
    ensures NoSeparator(e) && NoDot(e[1..])
    ensures f == Png <==> e == ".png"
    ensures f == Jpeg <==> e == ".jpg"
  {
    match f
    case Png => ".png"
    case Jpeg => ".jpg"
  }

  function LowerChar(c: char): char
  {
    if 'A' <= c <= 'Z' then (c as int + 32) as char else c
  }

  /** String.toLowerCase, on the ASCII letters. */
  function Lower(s: string): (r: string)
    ensures |r| == |s|
    ensures forall i :: 0 <= i < |s| ==> r[i] == LowerChar(s[i])
  {
    seq(|s|, i requires 0 <= i < |s| => LowerChar(s[i]))
  }

  /** String.endsWith. */
  predicate EndsWith(s: string, suffix: string)
  {
    |suffix| <= |s| && s[|s| - |suffix|..] == suffix
  }

  /** The index of the last character of s that is in cs, or -1 when there is none. */
  function LastIndexIn(s: string, cs: set<char>): (k: int)
    ensures -1 <= k < |s|
    ensures 0 <= k ==> s[k] in cs
    ensures forall j :: k < j < |s| ==> s[j] !in cs
  {
    if s == [] then -1
    else if s[|s| - 1] in cs then |s| - 1
    else LastIndexIn(s[..|s| - 1], cs)
  }

  /** The separators commons-io recognises on every platform. */
  const Separators: set<char> := {'/', '\\'}

  /** FilenameUtils.getName: what follows the last separator. */
  function NamePart(s: string): string
  {
    s[LastIndexIn(s, Separators) + 1..]
  }

  /** FilenameUtils.indexOfExtension: the last dot, unless a separator follows it. */
  function ExtensionIndex(s: string): int
  {
    var dot := LastIndexIn(s, {'.'});
    if LastIndexIn(s, Separators) > dot then -1 else dot
  }

  /** FilenameUtils.removeExtension. */
  function RemoveExtension(s: string): string
  {
    var k := ExtensionIndex(s);
    if k == -1 then s else s[..k]
  }

  /** FilenameUtils.getBaseName: the name without its directories and its last extension. */
  function BaseName(s: string): string
  {
    RemoveExtension(NamePart(s))
  }

  /** The name of the file that converting a file called `name` to `f` writes. */
  function TargetName(name: string, f: Format): string
  {
    BaseName(name) + TargetExtension(f)
  }

  /** new File(srcFile.getParentFile(), getBaseName(srcFile.getName()) + extension). */
  function TargetPath(src: Path, f: Format): Path
  {
    Path(src.dir, TargetName(src.name, f))
  }

  predicate NoSeparator(s: string)
  {
    forall i :: 0 <= i < |s| ==> s[i] !in Separators
  }

  predicate NoDot(s: string)
  {
    forall i :: 0 <= i < |s| ==> s[i] != '.'
  }

  /**
   * The base name is what remains of the file name once its directories and
   * its last extension are removed: it holds no separator, and either the
   * name part has no dot and is the base name itself, or it is the base
   * name, a dot and a dot-free extension.
   */
  lemma BaseNameSplits(s: string)
    ensures NoSeparator(BaseName(s))
    ensures NoSeparator(NamePart(s)) && EndsWith(s, NamePart(s))
    ensures NoSeparator(s) ==> NamePart(s) == s
    ensures |NamePart(s)| < |s| ==> s[|s| - |NamePart(s)| - 1] in Separators
    ensures NoDot(NamePart(s)) ==> BaseName(s) == NamePart(s)
    ensures !NoDot(NamePart(s)) ==>
      exists ext :: NoDot(ext) && NamePart(s) == BaseName(s) + "." + ext
  {
    var n := NamePart(s);
    var sep := LastIndexIn(s, Separators);
    assert n == s[sep + 1..];
    assert s[|s| - |n|..] == n;
    var dot := LastIndexIn(n, {'.'});
    if dot == -1 {
      assert NoDot(n);
    } else {
      assert LastIndexIn(n, Separators) == -1;
      var ext := n[dot + 1..];
      assert n == n[..dot] + "." + ext;
      assert NoDot(ext);
    }
  }

  /** A name that holds no separator and no dot is its own base name. */
  lemma PlainNameIsBase(s: string)
    requires NoSeparator(s) && NoDot(s)
    ensures BaseName(s) == s
  {
    assert LastIndexIn(s, Separators) == -1;
    assert LastIndexIn(s, {'.'}) == -1;
  }

  /** A character of cs with none after it is the last index LastIndexIn finds. */
  lemma {:induction false} LastIndexAt(s: string, cs: set<char>, k: int)
    requires -1 <= k < |s|
    requires 0 <= k ==> s[k] in cs
    requires forall j :: k < j < |s| ==> s[j] !in cs
    ensures LastIndexIn(s, cs) == k
  {
    if s != [] && k < |s| - 1 {
      LastIndexAt(s[..|s| - 1], cs, k);
    }
  }

  lemma AppendNoSeparator(a: string, b: string)
    requires NoSeparator(a) && NoSeparator(b)
    ensures NoSeparator(a + b)
  {
    assert forall j :: |a| <= j < |a + b| ==> (a + b)[j] == b[j - |a|];
  }

  /** Appending an extension leaves the name without separators and with a last dot at its start. */
  lemma WithExtension(b: string, e: string)
    requires NoSeparator(b) && 4 <= |e| <= 5 && e[0] == '.' && NoSeparator(e) && NoDot(e[1..])
    ensures BaseName(b + e) == b
  {
    var t := b + e;
    assert forall j :: |b| < j < |t| ==> t[j] == e[1..][j - |b| - 1];
    AppendNoSeparator(b, e);
    LastIndexAt(t, Separators, -1);
    LastIndexAt(t, {'.'}, |b|);
    assert NamePart(t) == t;
    assert ExtensionIndex(t) == |b|;
    assert t[..|b|] == b;
  }

  /** Only the last extension goes; earlier dots stay. */
  lemma BaseNameDropsLastExtension()
    ensures BaseName("photo.jpeg") == "photo"
    ensures BaseName("a.b.jpg") == "a.b"
  {
    LastIndexAt("photo.jpeg", Separators, -1);
    LastIndexAt("photo.jpeg", {'.'}, 5);
    LastIndexAt("a.b.jpg", Separators, -1);
    LastIndexAt("a.b.jpg", {'.'}, 3);
  }

  /** The directory part before the last '/' or '\\' goes, and a dot inside it is no extension. */
  lemma BaseNameDropsDirectory()
    ensures BaseName("dir\\shot.png") == "shot"
    ensures BaseName("a.d/shot") == "shot"
  {
    LastIndexAt("dir\\shot.png", Separators, 3);
    assert "dir\\shot.png"[4..] == "shot.png";
    LastIndexAt("shot.png", {'.'}, 4);
    LastIndexAt("a.d/shot", Separators, 3);
    assert "a.d/shot"[4..] == "shot";
    LastIndexAt("shot", {'.'}, -1);
  }

  /**
   * "b.jpg" and "b.jpeg" in one directory share the target "b.png", and a
   * "Jpeg -> PNG" bulk run selects both.
   */
  lemma JpegVariantsShareTarget(dir: string, b: string)
    requires NoSeparator(b) && NoDot(b)
    ensures TargetPath(Path(dir, b + ".jpg"), Png) == Path(dir, b + ".png")
    ensures TargetPath(Path(dir, b + ".jpeg"), Png) == Path(dir, b + ".png")
  {
    var jpg, jpeg := ".jpg", ".jpeg";
    assert NoSeparator(jpg) && NoDot(jpg[1..]) && NoSeparator(jpeg) && NoDot(jpeg[1..]);
    WithExtension(b, jpg);
    WithExtension(b, jpeg);
    assert TargetExtension(Png) == ".png";
  }


  /**
   * The base name never holds a separator. BaseNameSplits states this too;
   * this lemma is the cheap one to call when nothing else is needed.
   */
  lemma BaseNameHasNoSeparator(s: string)
    ensures NoSeparator(BaseName(s))
  {
    var n := NamePart(s);
    assert NoSeparator(n);
    assert BaseName(s) == n || BaseName(s) == n[..ExtensionIndex(n)];
  }

  /**
   * The target stays in the source's directory, carries the target
   * extension, and taking its base name gives back the source's base name.
   */
  lemma TargetPathShape(src: Path, f: Format)
    ensures TargetPath(src, f).dir == src.dir
    ensures NoSeparator(TargetPath(src, f).name)
    ensures EndsWith(TargetPath(src, f).name, TargetExtension(f))
    ensures BaseName(TargetPath(src, f).name) == BaseName(src.name)
  {
    var b := BaseName(src.name);
    var e := TargetExtension(f);
    BaseNameHasNoSeparator(src.name);
    AppendNoSeparator(b, e);
    WithExtension(b, e);
    assert (b + e)[|b + e| - 4..] == e;
  }

  lemma SelfTargetIf(src: Path, f: Format)
    requires NoSeparator(src.name) && EndsWith(src.name, TargetExtension(f))
    ensures TargetPath(src, f) == src
  {
    var s, e := src.name, TargetExtension(f);
    var b := s[..|s| - 4];
    assert s == b + e;
    WithExtension(b, e);
  }

  lemma SelfTargetOnlyIf(src: Path, f: Format)
    requires TargetPath(src, f) == src
    ensures NoSeparator(src.name) && EndsWith(src.name, TargetExtension(f))
  {
    var s, e := src.name, TargetExtension(f);
    var b := BaseName(s);
    BaseNameHasNoSeparator(s);
    AppendNoSeparator(b, e);
    assert s == b + e;
    assert s[|s| - 4..] == e;
  }

  /**
   * A conversion writes onto its own source exactly when the source name
   * has no separator and already ends with the target extension.
   */
  lemma SelfTarget(src: Path, f: Format)
    ensures TargetPath(src, f) == src <==>
      NoSeparator(src.name) && EndsWith(src.name, TargetExtension(f))
  {
    if NoSeparator(src.name) && EndsWith(src.name, TargetExtension(f)) {
      SelfTargetIf(src, f);
    }
    if TargetPath(src, f) == src {
      SelfTargetOnlyIf(src, f);
    }
  }
}
