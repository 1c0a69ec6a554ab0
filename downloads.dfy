/**
 * The age filter of `find_recent_exports` (bank_parsers.py and amex_export_parser.py).
 * The directory scan itself (glob patterns, `os.path.getmtime`, the clock) is not
 * modelled: the files the globs found, with their modification times, and the current
 * time arrive as parameters, all in whole seconds.
 */
module Downloads {
  const SecondsPerDay := 86400

  /** A file a glob pattern matched, with its modification time. */
  datatype Found = Found(path: string, mtime: int)

  /** `datetime.now() - timedelta(days=days_back)`. */
  function Cutoff(now: int, daysBack: int): int
  {
    now - daysBack * SecondsPerDay
  }

  /** The paths of the files modified at or after `cutoff`, in scan order. */
  function Recent(files: seq<Found>, cutoff: int): (r: seq<string>)
    ensures |r| <= |files|
    ensures forall p :: p in r <==> exists k :: 0 <= k < |files| && files[k].path == p && files[k].mtime >= cutoff
  {
    if |files| == 0 then []
    else
      var last := files[|files| - 1];
      var r := Recent(files[..|files| - 1], cutoff) + (if last.mtime >= cutoff then [last.path] else []);
      assert forall k :: 0 <= k < |files| - 1 ==> files[..|files| - 1][k] == files[k];
      r
  }

  /** The filtering loop, appending each recent enough path to `recent_files`. */
  method FilterRecent(files: seq<Found>, now: int, daysBack: int) returns (recent: seq<string>)
    ensures recent == Recent(files, Cutoff(now, daysBack))
  {
    var cutoff := Cutoff(now, daysBack);
    recent := [];
    for i := 0 to |files|
      invariant recent == Recent(files[..i], cutoff)
    {
      assert files[..i + 1][..i] == files[..i];
      if files[i].mtime >= cutoff {
        recent := recent + [files[i].path];
      }
    }
    assert files[..|files|] == files;
  }

  /** An earlier cutoff keeps at least as many files as a later one. */
  lemma {:induction false} EarlierCutoffKeepsMore(files: seq<Found>, early: int, late: int)
    requires early <= late
    ensures |Recent(files, late)| <= |Recent(files, early)|
  {
    if |files| > 0 {
      EarlierCutoffKeepsMore(files[..|files| - 1], early, late);
    }
  }

  /** Looking further back never finds fewer files. */
  lemma LongerLookbackFindsMore(files: seq<Found>, now: int, shorter: int, longer: int)
    requires shorter <= longer
    ensures |Recent(files, Cutoff(now, shorter))| <= |Recent(files, Cutoff(now, longer))|
  {
    EarlierCutoffKeepsMore(files, Cutoff(now, longer), Cutoff(now, shorter));
  }
}
