/** How the provider names the objects it derives from an Instance. The digest
    (SHA-1, first twelve hexadecimal digits) is a parameter. */
module Names {

  type Digest = string -> string

  predicate IsHex(c: char) {
    '0' <= c <= '9' || 'a' <= c <= 'f'
  }

  predicate Hex12(h: string) {
    |h| == 12 && forall i | 0 <= i < |h| :: IsHex(h[i])
  }

  ghost predicate IsDigest(digest: Digest) {
    forall x :: Hex12(digest(x))
  }

  function ScheduleInput(instance: string, schedule: string): string {
    instance + "\0" + schedule
  }

  function ScheduledName(digest: Digest, instance: string, schedule: string): string {
    "mdb-sched-" + digest(ScheduleInput(instance, schedule))
  }

  function BaseInput(instance: string): string {
    instance + "\0pitr-base"
  }

  function BaseName(digest: Digest, instance: string): string {
    "mdb-pitr-" + digest(BaseInput(instance))
  }

  function PitrName(instance: string): string {
    instance + "-pitr"
  }

  function TemplateName(instance: string): string {
    instance + "-replica-tpl"
  }

  function UserSecretName(instance: string): string {
    "everest-secrets-" + instance
  }

  function RootSecretName(instance: string): string {
    "everest-secrets-" + instance + "-root"
  }

  /** No two of the given schedule names share a digest under this Instance. */
  ghost predicate SchedulesDistinguished(digest: Digest, instance: string, schedules: set<string>) {
    forall a, b | a in schedules && b in schedules && a != b ::
      digest(ScheduleInput(instance, a)) != digest(ScheduleInput(instance, b))
  }

  /** No two of the given Instances share the digest that names their PITR base. */
  ghost predicate BasesDistinguished(digest: Digest, instances: set<string>) {
    forall a, b | a in instances && b in instances && a != b :: digest(BaseInput(a)) != digest(BaseInput(b))
  }

  lemma ScheduledNamesDiffer(digest: Digest, instance: string, a: string, b: string)
    requires digest(ScheduleInput(instance, a)) != digest(ScheduleInput(instance, b))
    ensures ScheduledName(digest, instance, a) != ScheduledName(digest, instance, b)
  {
    assert ScheduledName(digest, instance, a)[10..] == digest(ScheduleInput(instance, a));
    assert ScheduledName(digest, instance, b)[10..] == digest(ScheduleInput(instance, b));
  }

  lemma BaseNamesDiffer(digest: Digest, a: string, b: string)
    requires digest(BaseInput(a)) != digest(BaseInput(b))
    ensures BaseName(digest, a) != BaseName(digest, b)
  {
    assert BaseName(digest, a)[9..] == digest(BaseInput(a));
    assert BaseName(digest, b)[9..] == digest(BaseInput(b));
  }

  /** The name spaces "mdb-sched-", "mdb-pitr-" and "-replica-tpl" never meet,
      whatever the Instances and schedules are called. */
  lemma NameSpacesDisjoint(digest: Digest, i: string, schedule: string, j: string, k: string)
    requires IsDigest(digest)
    ensures ScheduledName(digest, i, schedule) != BaseName(digest, j)
    ensures ScheduledName(digest, i, schedule) != TemplateName(k)
    ensures BaseName(digest, j) != TemplateName(k)
  {
    var s, b, t := ScheduledName(digest, i, schedule), BaseName(digest, j), TemplateName(k);
    assert s[4] == 's' && b[4] == 'p';
    assert Hex12(digest(ScheduleInput(i, schedule))) && Hex12(digest(BaseInput(j)));
    assert IsHex(s[|s| - 1]) && IsHex(b[|b| - 1]);
    assert t[|t| - 1] == 'l';
  }

  lemma PitrNamesDiffer(i: string, j: string)
    requires i != j
    ensures PitrName(i) != PitrName(j)
  {
    assert PitrName(i)[..|i|] == i && PitrName(j)[..|j|] == j;
  }
}
