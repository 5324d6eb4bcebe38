/** The finding record every part of the backend passes around (a Python dictionary with the
    keys 'type', 'severity', 'file', 'line', 'line_content', 'language', 'description').
    Keys that some producers may leave out, and that consumers read with `.get(key, default)`,
    are `Option`s. */
module Findings {
  import opened Wrappers

  datatype Finding = Finding(
    kind: Option<string>,        // 'type'
    severity: Option<string>,    // 'severity'
    file: string,
    line: nat,                   // 1-based; 0 for repository-level findings
    lineContent: string,
    language: Option<string>,
    description: string)

  /** `vuln.get('severity', 'medium')`. */
  function SeverityOrMedium(f: Finding): string {
    f.severity.GetOr("medium")
  }

  /** The effective severities of `fs`, in order. */
  function SeveritiesOrMedium(fs: seq<Finding>): (r: seq<string>)
    ensures |r| == |fs| && forall i :: 0 <= i < |fs| ==> r[i] == SeverityOrMedium(fs[i])
  {
    seq(|fs|, i requires 0 <= i < |fs| => SeverityOrMedium(fs[i]))
  }

  /** Number of findings whose severity is present and equal to `sev`. */
  function CountSeverity(fs: seq<Finding>, sev: string): (n: nat)
    ensures n <= |fs|
  {
    if fs == [] then 0
    else CountSeverity(fs[..|fs| - 1], sev) + (if fs[|fs| - 1].severity == Some(sev) then 1 else 0)
  }

  lemma {:induction false} CountSeverityAppend(xs: seq<Finding>, ys: seq<Finding>, sev: string)
    ensures CountSeverity(xs + ys, sev) == CountSeverity(xs, sev) + CountSeverity(ys, sev)
    decreases |ys|
  {
    if ys == [] {
      assert xs + ys == xs;
    } else {
      var init := ys[..|ys| - 1];
      assert (xs + ys)[..|xs + ys| - 1] == xs + init;
      assert (xs + ys)[|xs + ys| - 1] == ys[|ys| - 1];
      CountSeverityAppend(xs, init, sev);
    }
  }

  /** The four severity buckets counted exactly never exceed the number of findings. */
  lemma {:induction false} SeverityBucketsBounded(fs: seq<Finding>)
    ensures CountSeverity(fs, "critical") + CountSeverity(fs, "high")
          + CountSeverity(fs, "medium") + CountSeverity(fs, "low") <= |fs|
  {
    if fs != [] {
      SeverityBucketsBounded(fs[..|fs| - 1]);
    }
  }
}
