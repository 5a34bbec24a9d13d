/**
 * The object-store paths the write buffer and the server configuration
 * build: a list of directories and an optional file name. Only the two
 * path operations those builders use are modelled, `push_dir` (and its
 * repeated form `push_all_dirs`) and `set_file_name`.
 */
module ObjectPaths {
  import opened Wrappers

  datatype ObjectPath = ObjectPath(dirs: seq<string>, fileName: Option<string>)

  /** `push_all_dirs`: the directories go below the existing ones, the file name stays. */
  function PushAllDirs(path: ObjectPath, dirs: seq<string>): (r: ObjectPath)
    ensures |r.dirs| == |path.dirs| + |dirs|
    ensures r.dirs[..|path.dirs|] == path.dirs && r.dirs[|path.dirs|..] == dirs
    ensures r.fileName == path.fileName
  {
    path.(dirs := path.dirs + dirs)
  }

  /** `set_file_name`: the directories stay, the file name is replaced. */
  function SetFileName(path: ObjectPath, name: string): (r: ObjectPath)
    ensures r.dirs == path.dirs && r.fileName == Some(name)
  {
    path.(fileName := Some(name))
  }

  /** Decimal digits of a number below 1000, zero-padded to three: Rust's `{:03}`. */
  function Pad3(n: nat): (r: string)
    requires n < 1000
    ensures |r| == 3 && forall i :: 0 <= i < 3 ==> '0' <= r[i] <= '9'
  {
    [Digit(n / 100), Digit(n / 10 % 10), Digit(n % 10)]
  }

  function Digit(d: nat): (c: char)
    requires d < 10
    ensures '0' <= c <= '9' && c as int - '0' as int == d
  {
    ('0' as int + d) as char
  }

  /** The number a three-digit string spells, if it is one. */
  function Parse3(s: string): (r: Option<nat>)
    ensures r.Some? ==> r.value < 1000
  {
    if |s| == 3 && forall i :: 0 <= i < 3 ==> '0' <= s[i] <= '9' then
      Some((s[0] as int - '0' as int) * 100 + (s[1] as int - '0' as int) * 10 + (s[2] as int - '0' as int))
    else None
  }

  /** Padding to three digits loses nothing. */
  lemma Parse3Pad3(n: nat)
    requires n < 1000
    ensures Parse3(Pad3(n)) == Some(n)
  {
    var s := Pad3(n);
    assert s[0] as int - '0' as int == n / 100;
    assert s[1] as int - '0' as int == n / 10 % 10;
    assert s[2] as int - '0' as int == n % 10;
  }
}
