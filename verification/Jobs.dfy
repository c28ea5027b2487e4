// The two kinds of job and the names of their companion pods (slurmjob/pod.go and wlmjob/pod.go).
module Jobs {
  datatype Job = Sj(name: string) | Wj(name: string)

  const JOB_SUFFIX := "-job"
  const WLM_SUFFIX := "-wlm"

  /** The name of the companion pod. */
  function PodName(j: Job): string {
    match j
    case Sj(name) => name + JOB_SUFFIX
    case Wj(name) => name + WLM_SUFFIX + JOB_SUFFIX
  }

  lemma AppendInjective(a: string, b: string, c: string)
    requires a + c == b + c
    ensures a == b
  {
    assert |a| == |b|;
    assert (a + c)[..|a|] == a && (b + c)[..|b|] == b;
  }

  /** Pod names collide exactly when a SlurmJob is named like a WlmJob plus "-wlm". */
  lemma CollisionIff(j: Job, k: Job)
    ensures PodName(j) == PodName(k) <==>
      || j == k
      || (j.Sj? && k.Wj? && j.name == k.name + WLM_SUFFIX)
      || (j.Wj? && k.Sj? && k.name == j.name + WLM_SUFFIX)
  {
    if PodName(j) == PodName(k) {
      if j.Sj? && k.Sj? {
        AppendInjective(j.name, k.name, JOB_SUFFIX);
      } else if j.Wj? && k.Wj? {
        AppendInjective(j.name + WLM_SUFFIX, k.name + WLM_SUFFIX, JOB_SUFFIX);
        AppendInjective(j.name, k.name, WLM_SUFFIX);
      } else if j.Sj? {
        AppendInjective(j.name, k.name + WLM_SUFFIX, JOB_SUFFIX);
      } else {
        AppendInjective(j.name + WLM_SUFFIX, k.name, JOB_SUFFIX);
      }
    }
  }

  /** The names in the source's words. */
  lemma PodNamesAre(name: string)
    ensures PodName(Sj(name)) == name + "-job" && PodName(Wj(name)) == name + "-wlm-job"
  {
    assert name + "-wlm" + "-job" == name + ("-wlm" + "-job");
  }
}
