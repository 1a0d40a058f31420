/**
  Node's `path.dirname`, for the relative, slash-separated paths a glob
  for files named `Dockerfile` returns.
 */
module Paths {
  import opened Wrappers

  /** Index of the last `/` in `p`, if any. */
  function LastSlash(p: string): (r: Option<nat>)
    ensures r.None? <==> '/' !in p
    ensures r.Some? ==> r.value < |p| && p[r.value] == '/'
    ensures r.Some? ==> forall j | r.value < j < |p| :: p[j] != '/'
  {
    if |p| == 0 then None
    else if p[|p| - 1] == '/' then Some(|p| - 1)
    else
      var r := LastSlash(p[..|p| - 1]);
      assert p == p[..|p| - 1] + [p[|p| - 1]];
      r
  }

  /**
    The directory part of `p`: everything before the last `/`; `"."` when
    there is no `/`; `"/"` when the only `/` is the leading one.
   */
  function Dirname(p: string): (d: string)
    ensures '/' !in p ==> d == "."
    ensures '/' in p && p[0] == '/' && '/' !in p[1..] ==> d == "/"
    ensures '/' in p && (p[0] != '/' || '/' in p[1..]) ==> |d| < |p| && d + "/" <= p && '/' !in p[|d| + 1..]
  {
    match LastSlash(p)
    case None => "."
    case Some(k) =>
      if k == 0 then "/"
      else
        assert p[..k] + "/" == p[..k + 1];
        p[..k]
  }

  /** `dirname("<dir>/<file>") == "<dir>"` for a file name without a slash. */
  lemma DirnameOfJoin(dir: string, file: string)
    requires dir != "" && '/' !in file
    ensures Dirname(dir + "/" + file) == dir
  {
    var p := dir + "/" + file;
    assert p[|dir|] == '/';
    forall j | |dir| < j < |p| ensures p[j] != '/' {
      assert p[j] == file[j - |dir| - 1];
    }
    var k := LastSlash(p).value;
    assert k == |dir|;
    assert p[..k] == dir;
  }
}
