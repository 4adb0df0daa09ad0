/** Reading the major and minor version from an image reference
    (internal/provider/validate.go). */
module ImageTag {
  import opened Kube
  import opened Decimal

  datatype Version = Version(major: int, minor: int)

  function BeforeAt(s: string): (r: string) {
    if s == "" || s[0] == '@' then "" else [s[0]] + BeforeAt(s[1..])
  }

  /** The index of the last colon, or -1. */
  function LastColon(s: string): (i: int)
    ensures -1 <= i < |s|
    ensures i >= 0 ==> s[i] == ':'
    ensures forall j | i < j < |s| :: s[j] != ':'
  {
    if s == "" then -1
    else if s[|s| - 1] == ':' then |s| - 1
    else LastColon(s[..|s| - 1])
  }

  /** How many digits the text starts with. */
  function DigitRun(s: string): (n: nat)
    ensures n <= |s| && AllDigits(s[..n])
    ensures forall j | 0 <= j < n :: IsDigit(s[j])
    ensures n < |s| ==> !IsDigit(s[n])
  {
    if s == "" || !IsDigit(s[0]) then 0
    else
      var n := DigitRun(s[1..]);
      assert s[..n + 1] == [s[0]] + s[1..][..n];
      n + 1
  }

  /** Atoi with its error ignored: a number too large reads as the largest int. */
  function Clamped(s: string): int
    requires AllDigits(s)
  {
    if Value(s) > INT_MAX then INT_MAX else Value(s)
  }

  /** The match of ^(\\d+)\\.(\\d+) in a tag. */
  function TagVersion(tag: string): Option<Version> {
    var a := DigitRun(tag);
    if a == 0 || a == |tag| || tag[a] != '.' then None
    else
      var rest := tag[a + 1..];
      var b := DigitRun(rest);
      if b == 0 then None else Some(Version(Clamped(tag[..a]), Clamped(rest[..b])))
  }

  function MinorVersion(image: string): Option<Version> {
    var name := BeforeAt(image);
    var i := LastColon(name);
    if i < 0 || '/' in name[i..] then None else TagVersion(name[i + 1..])
  }

  lemma {:induction false} BeforeAtOf(name: string, digest: string)
    requires '@' !in name
    requires digest == "" || digest[0] == '@'
    ensures BeforeAt(name + digest) == name
  {
    var s := name + digest;
    if name == "" {
      assert s == digest;
    } else {
      assert s[0] == name[0] && s[1..] == name[1..] + digest;
      assert name[0] in name;
      BeforeAtOf(name[1..], digest);
    }
  }

  lemma DigitRunOf(digits: string, rest: string)
    requires AllDigits(digits)
    requires rest == "" || !IsDigit(rest[0])
    ensures DigitRun(digits + rest) == |digits|
    ensures (digits + rest)[..|digits|] == digits && (digits + rest)[|digits|..] == rest
  {
    var s, n := digits + rest, DigitRun(digits + rest);
    assert forall j | 0 <= j < |digits| :: IsDigit(s[j]);
    assert rest != "" ==> s[|digits|] == rest[0];
  }

  lemma {:induction false} LastColonBefore(a: string, b: string)
    requires a != "" && a[|a| - 1] == ':' && ':' !in b
    ensures LastColon(a + b) == |a| - 1
    decreases |b|
  {
    if b == "" {
      assert a + b == a;
    } else {
      var init := b[..|b| - 1];
      assert (a + b)[..|a + b| - 1] == a + init;
      assert b[|b| - 1] in b && ':' !in init;
      LastColonBefore(a, init);
    }
  }

  lemma LastColonOf(repo: string, tag: string)
    requires ':' !in tag
    ensures LastColon(repo + ":" + tag) == |repo|
  {
    hide LastColon;
    LastColonBefore(repo + ":", tag);
  }

  lemma TagRoundTrip(major: nat, minor: nat, suffix: string)
    requires major <= INT_MAX && minor <= INT_MAX
    requires suffix == "" || !IsDigit(suffix[0])
    ensures TagVersion(Print(major) + ("." + (Print(minor) + suffix))) == Some(Version(major, minor))
  {
    hide Print, Value, DigitRun;
    ValueOfPrint(major);
    ValueOfPrint(minor);
    TwoNumbers(Print(major), Print(minor), suffix);
  }

  lemma TwoNumbers(a: string, b: string, suffix: string)
    requires a != "" && b != "" && AllDigits(a) && AllDigits(b)
    requires suffix == "" || !IsDigit(suffix[0])
    ensures TagVersion(a + ("." + (b + suffix))) == Some(Version(Clamped(a), Clamped(b)))
  {
    hide DigitRun, Clamped;
    var rest := b + suffix;
    var tag := a + ("." + rest);
    DigitRunOf(a, "." + rest);
    assert tag[|a|] == '.' && tag[|a| + 1..] == rest;
    DigitRunOf(b, suffix);
  }

  lemma TaggedImage(repo: string, tag: string, digest: string)
    requires '@' !in repo && '@' !in tag && ':' !in tag && '/' !in tag
    requires digest == "" || digest[0] == '@'
    ensures MinorVersion(repo + ":" + tag + digest) == TagVersion(tag)
  {
    hide BeforeAt, LastColon, TagVersion;
    var name := repo + ":" + tag;
    BeforeAtOf(name, digest);
    LastColonOf(repo, tag);
    assert name[|repo|..] == ":" + tag;
    assert name[|repo| + 1..] == tag;
  }

  /** Rendering a version into an image reference and reading it back. */
  lemma ImageRoundTrip(repo: string, major: nat, minor: nat, suffix: string, digest: string)
    requires '@' !in repo
    requires major <= INT_MAX && minor <= INT_MAX
    requires ':' !in suffix && '/' !in suffix && '@' !in suffix && (suffix == "" || !IsDigit(suffix[0]))
    requires digest == "" || digest[0] == '@'
    ensures MinorVersion(repo + ":" + (Print(major) + ("." + (Print(minor) + suffix))) + digest) ==
        Some(Version(major, minor))
  {
    ValueOfPrint(major);
    ValueOfPrint(minor);
    TagRoundTrip(major, minor, suffix);
    forall c | c in {':', '/', '@'}
      ensures c !in Print(major) + ("." + (Print(minor) + suffix))
    {
      NotIn(Print(major), c);
      NotIn(Print(minor), c);
    }
    TaggedImage(repo, Print(major) + ("." + (Print(minor) + suffix)), digest);
  }

  lemma NotIn(digits: string, c: char)
    requires AllDigits(digits) && !IsDigit(c)
    ensures c !in digits
  {
  }

  /** Every colon has a slash after it: a registry port perhaps, but no tag. */
  predicate Untagged(image: string) {
    forall i | 0 <= i < |image| && image[i] == ':' :: exists j | i < j < |image| :: image[j] == '/'
  }

  /** The name of a repository, with neither tag nor digest. */
  predicate Repository(image: string) {
    image != "" && '@' !in image && Untagged(image)
  }

  /** A registry port is not a version: an untagged image, with or without a digest,
      is never read as versioned. */
  lemma UntaggedNeverVersioned(repo: string, digest: string)
    requires Repository(repo)
    requires digest == "" || digest[0] == '@'
    ensures MinorVersion(repo + digest) == None
  {
    hide LastColon, BeforeAt;
    BeforeAtOf(repo, digest);
    var i := LastColon(repo);
    if i >= 0 {
      var j :| i < j < |repo| && repo[j] == '/';
      assert repo[i..][j - i] == '/';
    }
  }

  // ----- exactly which images read as versions --------------------------------

  /** Two numbers with a dot between, and then no further digit. */
  predicate TagParts(tag: string, major: string, minor: string, suffix: string) {
    && major != "" && minor != "" && AllDigits(major) && AllDigits(minor)
    && (suffix == "" || !IsDigit(suffix[0]))
    && tag == major + ("." + (minor + suffix))
  }

  /** A number as read: one too large for an int is the largest. */
  predicate Counts(digits: string, n: int)
    requires AllDigits(digits)
  {
    if Value(digits) <= 0x7fff_ffff_ffff_ffff then n == Value(digits) else n == 0x7fff_ffff_ffff_ffff
  }

  ghost predicate TagReads(tag: string, v: Version) {
    exists major, minor, suffix | TagParts(tag, major, minor, suffix) ::
      Counts(major, v.major) && Counts(minor, v.minor)
  }

  lemma TagVersionIff(tag: string, v: Version)
    ensures TagVersion(tag) == Some(v) <==> TagReads(tag, v)
  {
    hide DigitRun, Value;
    if TagVersion(tag) == Some(v) {
      var a := DigitRun(tag);
      var rest := tag[a + 1..];
      var b := DigitRun(rest);
      assert tag == tag[..a] + ("." + (rest[..b] + rest[b..]));
      assert TagParts(tag, tag[..a], rest[..b], rest[b..]);
    }
    if TagReads(tag, v) {
      var major, minor, suffix :| TagParts(tag, major, minor, suffix)
                                  && Counts(major, v.major) && Counts(minor, v.minor);
      TwoNumbers(major, minor, suffix);
    }
  }

  /** A repository, a tag and perhaps a digest. */
  predicate ImageParts(image: string, repo: string, tag: string, digest: string) {
    && '@' !in repo && '@' !in tag && ':' !in tag && '/' !in tag
    && (digest == "" || digest[0] == '@')
    && image == repo + ":" + tag + digest
  }

  lemma {:induction false} BeforeAtIs(s: string)
    ensures '@' !in BeforeAt(s) && BeforeAt(s) <= s
    ensures var rest := s[|BeforeAt(s)|..]; rest == "" || rest[0] == '@'
  {
    if s != "" && s[0] != '@' {
      BeforeAtIs(s[1..]);
      assert s == [s[0]] + s[1..];
      assert s[|BeforeAt(s)|..] == s[1..][|BeforeAt(s[1..])|..];
    }
  }

  /** An image reads as a version if and only if, up to its digest, what follows its
      last colon is no path and starts with two numbers and a dot between. */
  lemma MinorVersionIff(image: string, v: Version)
    ensures MinorVersion(image) == Some(v) <==>
              exists repo, tag, digest | ImageParts(image, repo, tag, digest) :: TagReads(tag, v)
  {
    hide BeforeAt, LastColon, TagVersion, TagReads;
    if MinorVersion(image) == Some(v) {
      BeforeAtIs(image);
      var name := BeforeAt(image);
      var i := LastColon(name);
      var repo, tag, digest := name[..i], name[i + 1..], image[|name|..];
      assert name == repo + ":" + tag && image == name + digest;
      assert forall j | 0 <= j < |tag| :: tag[j] == name[i + 1 + j] && tag[j] == name[i..][j + 1];
      assert ImageParts(image, repo, tag, digest);
      TagVersionIff(tag, v);
    }
    if repo, tag, digest :| ImageParts(image, repo, tag, digest) && TagReads(tag, v) {
      TaggedImage(repo, tag, digest);
      TagVersionIff(tag, v);
    }
  }
}
