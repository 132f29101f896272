/**
 * The two pieces of Node's `path` module the server relies on, for a bare file name (no
 * directory part): `path.extname` and the `name` field of `path.parse`.
 *
 * `extname` returns the text from the last '.', except that a name without a dot, a name whose
 * only dot is its first character (".bashrc") and the name ".." have no extension.
 */
module PathUtil {

  import opened Text

  /** The index of the last `c` in `s`, if any. */
  function LastIndexOf(s: string, c: char): (r: int)
    ensures -1 <= r < |s|
    ensures r >= 0 ==> s[r] == c
    ensures forall j :: r < j < |s| ==> s[j] != c
  {
    if s == [] then -1
    else if s[|s| - 1] == c then |s| - 1
    else LastIndexOf(s[..|s| - 1], c)
  }

  /** `path.extname(name)`. */
  function Extname(name: string): (e: string)
    ensures EndsWith(name, e)
    ensures e != "" ==> e[0] == '.' && '.' !in e[1..] && |e| < |name|
    ensures '.' !in name ==> e == ""
    ensures e == "" && '.' in name ==> name == ".." || (name[0] == '.' && '.' !in name[1..])
  {
    var d := LastIndexOf(name, '.');
    assert d == -1 <==> '.' !in name;
    if d <= 0 || name == ".." then ""
    else
      assert name[|name| - |name[d..]|..] == name[d..];
      assert name[d..][1..] == name[d + 1..];
      name[d..]
  }

  /** `path.parse(name).name`: the name without its extension. */
  function ParseName(name: string): (stem: string)
    ensures stem + Extname(name) == name
    ensures stem == "" <==> name == ""
  {
    var e := Extname(name);
    assert name == name[..|name| - |e|] + name[|name| - |e|..];
    name[..|name| - |e|]
  }

  /** A dot-free, non-empty stem followed by '.' and a dot-free extension: the extension is recovered. */
  lemma {:induction false} ExtnameOfStemAndExt(stem: string, ext: string)
    requires stem != "" && '.' !in stem && '.' !in ext
    ensures Extname(stem + "." + ext) == "." + ext
    ensures ParseName(stem + "." + ext) == stem
  {
    var name := stem + "." + ext;
    assert name[|stem|] == '.';
    assert forall j :: |stem| < j < |name| ==> name[j] == ext[j - |stem| - 1];
    var d := LastIndexOf(name, '.');
    assert d == |stem|;
    assert name[0] == stem[0] != '.';
    assert name[d..] == "." + ext;
    assert name[..|name| - |name[d..]|] == stem;
  }

  /**
   * Prefixing a non-empty, dot-free text keeps the extension: the stored upload names
   * (`suffix + ext`) have the extension of the original name.
   */
  lemma {:induction false} ExtnameAfterDotFreePrefix(prefix: string, name: string)
    requires prefix != "" && '.' !in prefix
    ensures Extname(prefix + Extname(name)) == Extname(name)
  {
    var e := Extname(name);
    if e == "" {
      assert prefix + e == prefix;
    } else {
      ExtnameOfStemAndExt(prefix, e[1..]);
      assert prefix + "." + e[1..] == prefix + e;
    }
  }
}
