/**
 Image names spelled out: which names there are, character by character and without the grammar's
 own vocabulary, and how the usual ways of writing them are read.
 */
module ImageNameForms {
  import opened Wrappers
  import opened Integers
  import opened Parsers
  import opened ImageNames
  import opened ImageNameLaws
  import opened Sequences

  // ----- Proper names

  /** Components between slashes, none of them empty, without dots, at-signs and colons. */
  predicate ProperPath(p: string) {
    && p != [] && p[0] != '/' && p[|p| - 1] != '/'
    && (forall i :: 0 <= i < |p| ==> p[i] != '.' && p[i] != '@' && p[i] != ':')
    && (forall i :: 0 < i < |p| ==> p[i] == '/' ==> p[i - 1] != '/')
  }

  /** A hostname stands on its own if it cannot be taken for the first component of a path. */
  predicate ProperHost(h: Host) {
    match h
    case DockerIo(None) => true
    case DockerIo(Some(path)) => ProperPath(path) && path != "localhost" && !("localhost/" <= path)
    case Other(name, port, path) =>
      && name != [] && (forall i :: 0 <= i < |name| ==> name[i] != '/' && name[i] != '@' && name[i] != ':')
      && (port.Some? || '.' in name || name == "localhost")
      && (path.Some? ==> ProperPath(path.value))
  }

  /** Letters and digits, underscores, dots and dashes. */
  predicate ProperText(letters: Letters, s: string) {
    s != [] && forall i :: 0 <= i < |s| ==> s[i] in letters || s[i] == '_' || s[i] == '.' || s[i] == '-'
  }

  predicate ProperDigest(letters: Letters, s: string) {
    s != [] && forall i :: 0 <= i < |s| ==> s[i] in letters || s[i] == ':'
  }

  function Digit(s: string, i: nat): int
    requires i < |s|
  {
    s[i] as int - '0' as int
  }

  /** Does not begin with a five-digit number above 65535. */
  predicate SmallInFront(s: string) {
    (|s| >= 5 && forall i :: 0 <= i < 5 ==> '0' <= s[i] <= '9') ==>
      10000 * Digit(s, 0) + 1000 * Digit(s, 1) + 100 * Digit(s, 2) + 10 * Digit(s, 3) + Digit(s, 4) <= 65535
  }

  predicate ProperReference(letters: Letters, r: DockerReference) {
    && ProperHost(r.host)
    && ProperText(letters, r.name)
    && (r.tag.Some? ==> ProperText(letters, r.tag.value))
    && (r.digest.Some? ==> ProperDigest(letters, r.digest.value))
    && (r.host == DockerIo(None) && r.tag.Some? ==> SmallInFront(r.tag.value))
  }

  predicate ProperLocalPath(p: LocalPath) {
    p.path != [] && ':' !in p.path && p.reference != Some([])
  }

  predicate ProperName(letters: Letters, x: ImageName) {
    match x
    case Docker(r) => ProperReference(letters, r)
    case Oci(p) => ProperLocalPath(p)
    case OciArchive(p) => ProperLocalPath(p)
  }

  // ----- They are the well-formed names

  lemma {:induction false} PathsAreProper(p: string)
    ensures PathOk(p) <==> ProperPath(p)
    decreases |p|
  {
    var n := Run(ComponentChar, p);
    assert forall i :: 0 <= i < n ==> p[..n][i] == p[i];
    if 0 < n < |p| {
      var rest := p[n + 1..];
      PathsAreProper(rest);
      assert p[n] == '/' ==> (ProperPath(p) <==> ProperPath(rest)) by {
        assert forall i :: n < i < |p| ==> p[i] == rest[i - n - 1];
        if p[n] == '/' && ProperPath(rest) {
          assert p[|p| - 1] == rest[|rest| - 1];
        }
        if p[n] == '/' && ProperPath(p) {
          assert n + 1 < |p|;
          assert rest[|rest| - 1] == p[|p| - 1];
        }
      }
    }
  }

  lemma {:induction false} ProperFirstComponent(p: string)
    requires PathOk(p)
    ensures FirstComponent(p) == LOCALHOST <==> p == "localhost" || "localhost/" <= p
  {
    hide PathOk, FirstComponent;
    StartsWithLocalhost(p, "");
    var s := p + ("/" + "");
    assert s == p + "/" && s[..|p|] == p;
    assert "localhost/" <= s <==> p == "localhost" || "localhost/" <= p by {
      if "localhost/" <= s && |p| < 10 {
        assert |p| == 9 && p == s[..9] == "localhost/"[..9];
      }
    }
  }

  lemma HostsAreProper(h: Host)
    ensures HostOk(h) <==> ProperHost(h)
  {
    hide PathOk, ProperPath, FirstComponent;
    match h {
      case DockerIo(None) =>
      case DockerIo(Some(path)) =>
        PathsAreProper(path);
        if PathOk(path) {
          ProperFirstComponent(path);
        }
      case Other(_, _, path) =>
        if path.Some? {
          PathsAreProper(path.value);
        }
    }
  }

  lemma {:induction false} NumberBound(s: string)
    requires All(IsDigit, s)
    ensures Number(s) < TenTo(|s|)
  {
    if s == [] {
    } else {
      NumberBound(s[..|s| - 1]);
    }
  }

  lemma {:induction false} NumberOfFive(s: string)
    requires |s| == 5 && All(IsDigit, s)
    ensures Number(s) == 10000 * Digit(s, 0) + 1000 * Digit(s, 1) + 100 * Digit(s, 2) + 10 * Digit(s, 3) + Digit(s, 4)
  {
    assert s[..4][..3] == s[..3] && s[..3][..2] == s[..2] && s[..2][..1] == s[..1] && s[..1][..0] == [];
    assert Number(s[..1]) == Digit(s, 0);
    assert Number(s[..2]) == 10 * Number(s[..1]) + Digit(s, 1);
    assert Number(s[..3]) == 10 * Number(s[..2]) + Digit(s, 2);
    assert Number(s[..4]) == 10 * Number(s[..3]) + Digit(s, 3);
  }

  lemma {:induction false} SmallNumbersFit(s: string)
    ensures LeadingNumberFits(s) <==> SmallInFront(s)
  {
    var n := Run(IsDigit, s);
    assert forall i :: 0 <= i < n ==> s[..n][i] == s[i];
    if n >= 5 {
      NumberOfFive(s[..5]);
    } else {
      NumberBound(s[..n]);
      assert TenTo(4) == 10000 by {
        assert TenTo(2) == 100 && TenTo(3) == 1000;
      }
      assert TenTo(n) <= 10000 by {
        assert TenTo(0) == 1 && TenTo(1) == 10 && TenTo(2) == 100 && TenTo(3) == 1000;
      }
      assert |s| >= 5 ==> !IsDigit(s[n]);
    }
  }

  /** The names that survive being printed and parsed, character by character. */
  lemma NamesAreProper(letters: Letters, x: ImageName)
    ensures WellFormed(letters, x) <==> ProperName(letters, x)
  {
    hide HostOk, ProperHost, LeadingNumberFits, SmallInFront;
    if x.Docker? {
      HostsAreProper(x.docker.host);
      if x.docker.tag.Some? {
        SmallNumbersFit(x.docker.tag.value);
      }
    }
  }

  /** Printing and then parsing gives back exactly the proper names. */
  lemma ProperNamesSurvive(letters: Letters, x: ImageName)
    ensures FromString(letters, Print(x)) == Parsed(x) <==> ProperName(letters, x)
  {
    hide FromString, Print, WellFormed, ProperName;
    NamesAreProper(letters, x);
    RoundTripExactly(letters, x);
  }

  /** Whatever is parsed is a proper name. */
  lemma ParsedIsProper(letters: Letters, s: string)
    requires FromString(letters, s).Parsed?
    ensures ProperName(letters, FromString(letters, s).name)
  {
    hide FromString, WellFormed, ProperName;
    NamesAreProper(letters, FromString(letters, s).name);
    ParsedIsWellFormed(letters, s);
  }

  // ----- How names are read

  lemma ReadsPrinted(letters: Letters, x: ImageName, s: string)
    requires ProperName(letters, x) && s == Print(x)
    ensures FromString(letters, s) == Parsed(x)
  {
    hide FromString, Print, ProperName;
    ProperNamesSurvive(letters, x);
  }

  /** A name of docker.io's own, alone or with a digest. */
  lemma NameIsRead(letters: Letters, name: string, digest: string)
    requires ProperText(letters, name)
    ensures FromString(letters, "docker://" + name) == Parsed(Docker(DockerReference(DockerIo(None), name, None, None)))
    ensures ProperDigest(letters, digest) ==>
              FromString(letters, "docker://" + name + "@" + digest)
              == Parsed(Docker(DockerReference(DockerIo(None), name, None, Some(digest))))
  {
    hide FromString, ProperText, ProperDigest, Print;
    PrintsTagAndDigest(name, None, None);
    ReadsPrinted(letters, Docker(DockerReference(DockerIo(None), name, None, None)), "docker://" + name);
    if ProperDigest(letters, digest) {
      PrintsTagAndDigest(name, None, Some(digest));
      ReadsPrinted(letters, Docker(DockerReference(DockerIo(None), name, None, Some(digest))),
                   "docker://" + name + "@" + digest);
    }
  }

  /** With a tag, as `docker://ubuntu:22.04`, and perhaps a digest as well. */
  lemma TaggedNameIsRead(letters: Letters, name: string, tag: string, digest: string)
    requires ProperText(letters, name) && ProperText(letters, tag) && SmallInFront(tag)
    ensures FromString(letters, "docker://" + name + ":" + tag)
         == Parsed(Docker(DockerReference(DockerIo(None), name, Some(tag), None)))
    ensures ProperDigest(letters, digest) ==>
              FromString(letters, "docker://" + name + ":" + tag + "@" + digest)
              == Parsed(Docker(DockerReference(DockerIo(None), name, Some(tag), Some(digest))))
  {
    hide FromString, ProperText, ProperDigest, SmallInFront, Print;
    PrintsTagAndDigest(name, Some(tag), None);
    ReadsPrinted(letters, Docker(DockerReference(DockerIo(None), name, Some(tag), None)),
                 "docker://" + name + ":" + tag);
    if ProperDigest(letters, digest) {
      PrintsTagAndDigest(name, Some(tag), Some(digest));
      ReadsPrinted(letters, Docker(DockerReference(DockerIo(None), name, Some(tag), Some(digest))),
                   "docker://" + name + ":" + tag + "@" + digest);
    }
  }

  lemma PrintsTagAndDigest(name: string, tag: Option<string>, digest: Option<string>)
    ensures
      var afterTag := if tag.Some? then "docker://" + name + ":" + tag.value else "docker://" + name;
      Print(Docker(DockerReference(DockerIo(None), name, tag, digest)))
      == if digest.Some? then afterTag + "@" + digest.value else afterTag
  {
    PrintsParts(name, if tag.Some? then ":" + tag.value else "", if digest.Some? then "@" + digest.value else "");
    if tag.Some? {
      Associative("docker://" + name, ":", tag.value);
    }
    if digest.Some? {
      var afterTag := if tag.Some? then "docker://" + name + ":" + tag.value else "docker://" + name;
      Associative(afterTag, "@", digest.value);
    }
  }

  lemma PrintsParts(name: string, tag: string, digest: string)
    ensures "docker://" + ("" + name + tag + digest) == ("docker://" + name) + tag + digest
  {
  }

  /** A name below a path of docker.io's, as `docker://a/b/name`, with a tag whose number may be of any size. */
  lemma NameInPathIsRead(letters: Letters, path: string, name: string, tag: string)
    requires ProperPath(path) && path != "localhost" && !("localhost/" <= path)
    requires ProperText(letters, name) && ProperText(letters, tag)
    ensures FromString(letters, "docker://" + path + "/" + name)
         == Parsed(Docker(DockerReference(DockerIo(Some(path)), name, None, None)))
    ensures FromString(letters, "docker://" + path + "/" + name + ":" + tag)
         == Parsed(Docker(DockerReference(DockerIo(Some(path)), name, Some(tag), None)))
  {
    hide FromString, ProperText, ProperPath;
    ReadsPrinted(letters, Docker(DockerReference(DockerIo(Some(path)), name, None, None)),
                 "docker://" + path + "/" + name);
    ReadsPrinted(letters, Docker(DockerReference(DockerIo(Some(path)), name, Some(tag), None)),
                 "docker://" + path + "/" + name + ":" + tag);
  }

  /** A name at a host with a port. */
  lemma {:induction false} NameAtPortIsRead(letters: Letters, host: string, port: u16, path: string, name: string)
    requires host != [] && forall i :: 0 <= i < |host| ==> host[i] != '/' && host[i] != '@' && host[i] != ':'
    requires ProperPath(path) && ProperText(letters, name)
    ensures FromString(letters, "docker://" + host + ":" + Decimal(port) + "/" + path + "/" + name)
         == Parsed(Docker(DockerReference(Other(host, Some(port), Some(path)), name, None, None)))
  {
    hide FromString, ProperText, ProperPath, Decimal;
    ReadsPrinted(letters, Docker(DockerReference(Other(host, Some(port), Some(path)), name, None, None)),
                 "docker://" + host + ":" + Decimal(port) + "/" + path + "/" + name);
  }

  /** A name at a host without a port, which has a dot or is `localhost`. */
  lemma NameAtHostIsRead(letters: Letters, host: string, path: string, name: string)
    requires host != [] && forall i :: 0 <= i < |host| ==> host[i] != '/' && host[i] != '@' && host[i] != ':'
    requires '.' in host || host == "localhost"
    requires ProperPath(path) && ProperText(letters, name)
    ensures FromString(letters, "docker://" + host + "/" + path + "/" + name)
         == Parsed(Docker(DockerReference(Other(host, None, Some(path)), name, None, None)))
    ensures FromString(letters, "docker://" + host + "/" + name)
         == Parsed(Docker(DockerReference(Other(host, None, None), name, None, None)))
  {
    hide FromString, ProperText, ProperPath, Print;
    PrintsHost(host, path, name);
    ReadsPrinted(letters, Docker(DockerReference(Other(host, None, Some(path)), name, None, None)),
                 "docker://" + host + "/" + path + "/" + name);
    ReadsPrinted(letters, Docker(DockerReference(Other(host, None, None), name, None, None)),
                 "docker://" + host + "/" + name);
  }

  lemma PrintsHost(host: string, path: string, name: string)
    ensures Print(Docker(DockerReference(Other(host, None, Some(path)), name, None, None)))
         == "docker://" + host + "/" + path + "/" + name
    ensures Print(Docker(DockerReference(Other(host, None, None), name, None, None))) == "docker://" + host + "/" + name
  {
  }

  /** A local image: the path goes up to the first colon, and what follows is the reference. */
  lemma LocalImageIsRead(letters: Letters, path: string, reference: string)
    requires path != [] && ':' !in path
    ensures FromString(letters, "oci:" + path) == Parsed(Oci(LocalPath(path, None)))
    ensures FromString(letters, "oci-archive:" + path) == Parsed(OciArchive(LocalPath(path, None)))
    ensures reference != [] ==>
              FromString(letters, "oci:" + path + ":" + reference) == Parsed(Oci(LocalPath(path, Some(reference))))
    ensures reference != [] ==>
              FromString(letters, "oci-archive:" + path + ":" + reference)
              == Parsed(OciArchive(LocalPath(path, Some(reference))))
  {
    hide FromString;
    ReadsPrinted(letters, Oci(LocalPath(path, None)), "oci:" + path);
    ReadsPrinted(letters, OciArchive(LocalPath(path, None)), "oci-archive:" + path);
    if reference != [] {
      ReadsPrinted(letters, Oci(LocalPath(path, Some(reference))), "oci:" + path + ":" + reference);
      ReadsPrinted(letters, OciArchive(LocalPath(path, Some(reference))), "oci-archive:" + path + ":" + reference);
    }
  }

  // ----- What makes the parser panic

  /** From the scheme up to `n` a hostname, then a colon, then a five-digit number above 65535. */
  predicate PanicsAt(s: string, n: nat) {
    && "docker://" <= s && 9 < n < |s| && s[n] == ':'
    && (forall i :: 9 <= i < n ==> s[i] != '/' && s[i] != '@' && s[i] != ':')
    && !SmallInFront(s[n + 1..])
  }

  lemma {:induction false} PanicsSpelledOut(letters: Letters, s: string)
    ensures FromString(letters, s).Panicked? <==> exists n: nat :: PanicsAt(s, n)
  {
    hide FromString, SmallInFront, LeadingNumberFits;
    PanicsExactly(letters, s);
    if "docker://" <= s {
      var t := s[9..];
      var n := Run(HostnameChar, t);
      assert forall i :: 0 <= i < n ==> t[..n][i] == t[i];
      if n < |t| {
        SmallNumbersFit(t[n + 1..]);
        assert t[n + 1..] == s[9 + n + 1..];
      }
      if LargePort(t) {
        assert PanicsAt(s, 9 + n);
      }
      if m: nat :| PanicsAt(s, m) {
        assert t[m - 9] == ':';
        assert forall i :: 0 <= i < m - 9 ==> t[i] == s[i + 9];
        assert n == m - 9;
      }
    }
  }
}
