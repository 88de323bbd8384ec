/**
 The laws of image names: printing and then parsing gives a name back exactly when it is well
 formed, whatever is parsed is well formed, and exactly which strings make the parser panic.
 */
module ImageNameLaws {
  import opened Wrappers
  import opened Integers
  import opened Parsers
  import opened ImageNames
  import opened Sequences

  predicate NoSlash(t: string) { '/' !in t }

  // ----- Components and paths

  lemma ComponentReads(c: string, t: string)
    requires NonEmptyRun(ComponentChar, c)
    ensures ComponentAndSlash(c + ("/" + t)) == Okay(c, t)
  {
    hide Many1, Token;
    Many1Reads(ComponentChar, c, "/" + t);
    TokenReads('/', t);
  }

  lemma ComponentRead(s: string, c: string, t: string)
    requires ComponentAndSlash(s) == Okay(c, t)
    ensures NonEmptyRun(ComponentChar, c) && s == c + ("/" + t)
  {
    hide Many1, Token;
    var rest := Many1(ComponentChar, s).rest;
    Many1Read(ComponentChar, s, c, rest);
    TokenRead('/', rest);
  }

  /** A component that is not followed by a slash is not read. */
  lemma {:induction false} ComponentNeedsSlash(s: string)
    requires var n := Run(ComponentChar, s); n == 0 || n == |s| || s[n] != '/'
    ensures ComponentAndSlash(s).Fail? && Components(s) == ([], s)
  {
  }

  lemma {:induction false} NoSlashNoComponent(t: string)
    requires NoSlash(t)
    ensures ComponentAndSlash(t).Fail? && Components(t) == ([], t)
  {
    ComponentNeedsSlash(t);
  }

  lemma {:induction false} ComponentsStep(c: string, t: string)
    requires NonEmptyRun(ComponentChar, c)
    ensures Components(c + ("/" + t)) == ([c] + Components(t).0, Components(t).1)
  {
    ComponentReads(c, t);
  }

  /** A path is one component, or a component and a path. */
  lemma PathCases(p: string) returns (c: string, more: string)
    requires PathOk(p)
    ensures c == FirstComponent(p) && NonEmptyRun(ComponentChar, c) && |more| < |p|
    ensures p == c || (PathOk(more) && p == c + ("/" + more))
  {
    var n := Run(ComponentChar, p);
    c, more := p[..n], if n == |p| then [] else p[n + 1..];
  }

  lemma {:induction false} PathOfOne(c: string)
    requires NonEmptyRun(ComponentChar, c)
    ensures PathOk(c) && FirstComponent(c) == c
  {
    RunOfAll(ComponentChar, c, []);
    assert c + [] == c;
  }

  lemma {:induction false} PathOfMore(c: string, more: string)
    requires NonEmptyRun(ComponentChar, c) && PathOk(more)
    ensures PathOk(c + ("/" + more)) && FirstComponent(c + ("/" + more)) == c
  {
    var p := c + ("/" + more);
    RunOfAll(ComponentChar, c, "/" + more);
    assert p[|c|] == '/' && p[|c| + 1..] == more;
  }

  /** A well-formed path is read back whole. */
  lemma {:induction false} ComponentsOfPath(p: string, t: string)
    requires PathOk(p) && Components(t) == ([], t)
    ensures
      var (components, rest) := Components(p + ("/" + t));
      components != [] && Join(components) == p && rest == t
    decreases |p|
  {
    hide PathOk, NonEmptyRun, FirstComponent, Components;
    var c, more := PathCases(p);
    if p == c {
      ComponentsStep(c, t);
    } else {
      ComponentsOfPath(more, t);
      Associative(c, "/" + more, "/" + t);
      Associative("/", more, "/" + t);
      ComponentsStep(c, more + ("/" + t));
      JoinStep(c, Components(more + ("/" + t)).0);
    }
  }

  lemma {:induction false} JoinStep(c: string, components: seq<string>)
    requires components != []
    ensures Join([c] + components) == c + ("/" + Join(components))
  {
    assert ([c] + components)[1..] == components;
  }

  /** What is read as components is a well-formed path. */
  lemma {:induction false} ComponentsArePath(s: string)
    ensures
      var (components, rest) := Components(s);
      if components == [] then rest == s else PathOk(Join(components)) && s == Join(components) + ("/" + rest)
    decreases |s|
  {
    hide PathOk, NonEmptyRun, FirstComponent, ComponentAndSlash;
    if Components(s).0 == [] {
    } else {
      var c, after := ComponentAndSlash(s).value, ComponentAndSlash(s).rest;
      ComponentRead(s, c, after);
      ComponentsArePath(after);
      var (more, end) := Components(after);
      if more == [] {
        PathOfOne(c);
      } else {
        PathOfMore(c, Join(more));
        JoinStep(c, more);
        Associative(c, "/" + Join(more), "/" + end);
        Associative("/", Join(more), "/" + end);
      }
    }
  }

  /** Only a path whose first component is `localhost` starts with that host. */
  lemma {:induction false} StartsWithLocalhost(p: string, t: string)
    requires PathOk(p)
    ensures LOCALHOST + "/" <= p + ("/" + t) <==> FirstComponent(p) == LOCALHOST
  {
    var c, more := PathCases(p);
    var after := if p == c then t else more + ("/" + t);
    assert p + ("/" + t) == c + ("/" + after);
    SlashAfterComponent(c, after);
  }

  lemma SlashAfterComponent(c: string, t: string)
    requires All(ComponentChar, c)
    ensures LOCALHOST + "/" <= c + ("/" + t) <==> c == LOCALHOST
  {
    var s := c + ("/" + t);
    var n := |LOCALHOST|;
    assert s[|c|] == '/' && s[..|c|] == c;
    if c == LOCALHOST {
      assert s[..n + 1] == LOCALHOST + "/";
    }
    if LOCALHOST + "/" <= s {
      assert s[n] == '/' && s[..n] == LOCALHOST;
      assert forall i :: 0 <= i < n ==> s[i] == LOCALHOST[i] && s[i] != '/';
      assert forall i :: 0 <= i < |c| ==> s[i] != '/';
    }
  }

  // ----- Hosts

  lemma {:induction false} DockerIoByComponents(s: string)
    ensures
      var (components, rest) := Components(s);
      if LOCALHOST + "/" <= s || components == [] then DockerIoParser(s).Fail?
      else DockerIoParser(s) == Okay(DockerIo(Some(Join(components))), rest)
  {
    if ComponentAndSlash(s).Okay? {
      ComponentRead(s, ComponentAndSlash(s).value, ComponentAndSlash(s).rest);
    }
  }

  lemma DockerIoReadBack(path: string, t: string)
    requires HostOk(DockerIo(Some(path))) && NoSlash(t)
    ensures DockerIoParser(path + ("/" + t)) == Okay(DockerIo(Some(path)), t)
  {
    hide PathOk, FirstComponent, DockerIoParser, Components;
    NoSlashNoComponent(t);
    ComponentsOfPath(path, t);
    StartsWithLocalhost(path, t);
    DockerIoByComponents(path + ("/" + t));
  }

  /** A port as printed is read back, up to the slash. */
  lemma {:induction false} PortReads(port: u16, t: string)
    ensures Port(Decimal(port) + ("/" + t)) == Okay(port, "/" + t)
  {
    var digits := Decimal(port);
    RunOfAll(IsDigit, digits, "/" + t);
    assert TenTo(5) == 100000 by {
      assert TenTo(2) == 100 && TenTo(3) == 1000 && TenTo(4) == 10000;
    }
    DecimalLength(port, 5);
    DecimalRoundTrip(port);
  }

  function PrintPort(port: Option<u16>): string {
    Prefixed(":", if port.Some? then Some(Decimal(port.value)) else None)
  }

  lemma OptionalPortReads(port: Option<u16>, t: string)
    ensures
      var s := PrintPort(port) + ("/" + t);
      Optional(ColonAndPort(s), s) == Okay(port, "/" + t)
  {
    hide Port, Decimal;
    if port.Some? {
      Associative(":", Decimal(port.value), "/" + t);
      TokenReads(':', Decimal(port.value) + ("/" + t));
      PortReads(port.value, t);
    } else {
      assert PrintPort(port) + ("/" + t) == "/" + t;
    }
  }

  lemma OptionalPathReads(path: Option<string>, t: string) returns (afterSlash: string)
    requires (path.Some? ==> PathOk(path.value)) && NoSlash(t)
    ensures Prefixed("/", path) + ("/" + t) == "/" + afterSlash
    ensures
      var (components, rest) := Components(afterSlash);
      rest == t && path == if components == [] then None else Some(Join(components))
  {
    hide PathOk, Components;
    NoSlashNoComponent(t);
    if path.Some? {
      afterSlash := path.value + ("/" + t);
      Associative("/", path.value, "/" + t);
      ComponentsOfPath(path.value, t);
    } else {
      afterSlash := t;
      assert Prefixed("/", path) + ("/" + t) == "/" + t;
    }
  }

  lemma OtherReadBack(name: string, port: Option<u16>, path: Option<string>, t: string)
    requires HostOk(Other(name, port, path)) && NoSlash(t)
    ensures OtherParser(name + (PrintPort(port) + (Prefixed("/", path) + ("/" + t))))
         == Okay(Other(name, port, path), t)
  {
    hide PathOk, Components, Many1, Token, ColonAndPort, NonEmptyRun, Prefixed, PrintPort;
    var afterSlash := OptionalPathReads(path, t);
    OptionalPortReads(port, afterSlash);
    PortStops(port, afterSlash);
    Many1Reads(HostnameChar, name, PrintPort(port) + ("/" + afterSlash));
    TokenReads('/', afterSlash);
  }

  lemma PortStops(port: Option<u16>, t: string)
    ensures StopsBefore(HostnameChar, PrintPort(port) + ("/" + t))
  {
  }

  /** A hostname with a dot or a port, or `localhost`, is not taken for a docker.io path. */
  lemma OtherIsNotDockerIo(name: string, port: Option<u16>, path: Option<string>, t: string)
    requires HostOk(Other(name, port, path))
    ensures DockerIoParser(name + (PrintPort(port) + ("/" + t))).Fail?
  {
    hide Components, DockerIoParser, PathOk;
    var after := PrintPort(port) + ("/" + t);
    var s := name + after;
    DockerIoByComponents(s);
    if '.' in name {
      DotStopsComponent(name, after);
      ComponentNeedsSlash(s);
    } else if port.Some? {
      RunOfAll(ComponentChar, name, after);
      ComponentNeedsSlash(s);
    } else {
      assert after == "/" + t;
      SlashAfterComponent(name, t);
    }
  }

  lemma {:induction false} DotStopsComponent(name: string, t: string)
    requires All(HostnameChar, name) && '.' in name
    ensures var n := Run(ComponentChar, name + t); n < |name + t| && (name + t)[n] != '/'
  {
    var i :| 0 <= i < |name| && name[i] == '.';
    var n := Run(ComponentChar, name);
    assert forall k :: 0 <= k < n ==> name[..n][k] == name[k] && ComponentChar(name[k]);
    RunStops(ComponentChar, name, t);
  }

  lemma HostReadBack(h: Host, t: string)
    requires HostOk(h) && h != DockerIo(None) && NoSlash(t)
    ensures HostParser(PrintHost(h) + t) == Okay(h, t)
  {
    hide DockerIoParser, OtherParser, NoSlash, PathOk, Prefixed, Components;
    match h {
      case DockerIo(Some(path)) =>
        Associative(path, "/", t);
        DockerIoReadBack(path, t);
      case Other(name, port, path) =>
        OtherReadBack(name, port, path, t);
        var afterSlash := OptionalPathReads(path, t);
        OtherIsNotDockerIo(name, port, path, afterSlash);
        PrintedOther(name, PrintPort(port), Prefixed("/", path), t);
    }
  }

  lemma PrintedOther(name: string, port: string, path: string, t: string)
    ensures (name + port + path + "/") + t == name + (port + (path + ("/" + t)))
  {
  }

  // ----- Hosts that were read

  lemma OthersReadAreOk(s: string)
    requires OtherParser(s).Okay? && DockerIoParser(s).Fail?
    ensures HostOk(OtherParser(s).value)
  {
    hide Many1, Token, Components, DockerIoParser, PathOk, ColonAndPort;
    var name, port := OtherParser(s).value.name, OtherParser(s).value.port;
    var afterName := Many1(HostnameChar, s).rest;
    Many1Read(HostnameChar, s, name, afterName);
    var afterPort := Optional(ColonAndPort(afterName), afterName).rest;
    var rest := Token('/', afterPort).rest;
    TokenRead('/', afterPort);
    ComponentsArePath(rest);
    if port.None? && '.' !in name {
      assert All(ComponentChar, name);
      ComponentsStep(name, rest);
      DockerIoByComponents(s);
      SlashAfterComponent(name, rest);
    }
  }

  /** Everything read as a host is well formed; without one, nothing was consumed and no port was too large. */
  lemma HostsReadAreOk(s: string)
    requires HostParser(s).Okay?
    ensures HostOk(HostParser(s).value)
    ensures HostParser(s).value == DockerIo(None) ==> HostParser(s).rest == s && !OtherParser(s).Panic?
  {
    hide Components, DockerIoParser, OtherParser, PathOk, FirstComponent;
    DockerIoByComponents(s);
    var (components, rest) := Components(s);
    ComponentsArePath(s);
    if DockerIoParser(s).Okay? {
      StartsWithLocalhost(Join(components), rest);
    } else if OtherParser(s).Okay? {
      OthersReadAreOk(s);
      OtherHasName(s);
    }
  }

  lemma OtherHasName(s: string)
    requires OtherParser(s).Okay?
    ensures OtherParser(s).value.Other?
  {
  }

  // ----- References

  /** What follows the name in a reference, and what follows the host. */
  function AfterName(r: DockerReference): string {
    Prefixed(":", r.tag) + Prefixed("@", r.digest)
  }

  function AfterHost(r: DockerReference): string {
    r.name + AfterName(r)
  }

  lemma NoSlashAfterHost(letters: Letters, r: DockerReference)
    requires ReferenceShapeOk(letters, r)
    ensures NoSlash(AfterHost(r))
  {
  }

  /** An optional part is read back up to what cannot go on with it. */
  lemma PartReads(separator: char, allowed: char -> bool, part: Option<string>, t: string)
    requires part.Some? ==> NonEmptyRun(allowed, part.value) && StopsBefore(allowed, t)
    requires part.None? ==> t == [] || t[0] != separator
    ensures
      var s := Prefixed([separator], part) + t;
      Optional(Part(separator, allowed, s), s) == Okay(part, t)
  {
    if part.Some? {
      hide Many1, Token;
      Associative([separator], part.value, t);
      TokenReads(separator, part.value + t);
      Many1Reads(allowed, part.value, t);
    } else {
      assert Prefixed([separator], part) + t == t;
    }
  }

  /** After the host, name, tag and digest are read back. */
  lemma AfterHostReads(letters: Letters, r: DockerReference, s: string)
    requires ReferenceShapeOk(letters, r)
    requires HostParser(s) == Okay(r.host, AfterHost(r))
    ensures ReferenceParser(letters, s) == Okay(r, [])
  {
    hide Many1, Part, HostParser, HostOk, NonEmptyRun;
    NameStops(letters, r);
    Many1Reads(NameChar(letters), r.name, AfterName(r));
    PartReads(':', NameChar(letters), r.tag, Prefixed("@", r.digest));
    PartReads('@', DigestChar(letters), r.digest, []);
    assert Prefixed("@", r.digest) + [] == Prefixed("@", r.digest);
  }

  lemma NameStops(letters: Letters, r: DockerReference)
    ensures StopsBefore(NameChar(letters), AfterName(r)) && StopsBefore(NameChar(letters), Prefixed("@", r.digest))
    ensures StopsBefore(HostnameChar, AfterName(r)) && StopsBefore(IsDigit, Prefixed("@", r.digest))
  {
  }

  lemma {:induction false} SameLeadingDigits(tag: string, after: string)
    requires StopsBefore(IsDigit, after)
    ensures Run(IsDigit, tag + after) == Run(IsDigit, tag)
    ensures forall k :: 0 <= k <= Run(IsDigit, tag) ==> (tag + after)[..k] == tag[..k]
  {
    if Run(IsDigit, tag) < |tag| {
      RunStops(IsDigit, tag, after);
    } else {
      assert tag[..|tag|] == tag;
      RunOfAll(IsDigit, tag, after);
    }
  }

  /** Where no slash follows, a hostname is never read: its port fails to parse or to be followed by one, or panics. */
  lemma NoSlashNoHost(name: string, tag: Option<string>, after: string)
    requires NonEmptyRun(HostnameChar, name)
    requires NoSlash(Prefixed(":", tag) + after)
    requires StopsBefore(IsDigit, after) && StopsBefore(HostnameChar, after) && (after == [] || after[0] != ':')
    ensures
      var reply := OtherParser(name + (Prefixed(":", tag) + after));
      if tag.None? || LeadingNumberFits(tag.value) then reply.Fail? else reply.Panic?
  {
    hide Many1, ColonAndPort, Run, NonEmptyRun, LeadingNumberFits;
    var rest := Prefixed(":", tag) + after;
    Many1Reads(HostnameChar, name, rest);
    if tag.Some? {
      Associative(":", tag.value, after);
      TagAsPort(tag.value, after);
    } else {
      assert rest == after;
      NoPort(after);
    }
  }

  lemma NoPort(s: string)
    requires s == [] || s[0] != ':'
    ensures ColonAndPort(s) == Fail(false)
  {
  }

  /** A tag read as a port: too large a number panics, and otherwise no slash is left to read. */
  lemma TagAsPort(tag: string, after: string)
    requires NoSlash(tag + after) && StopsBefore(IsDigit, after)
    ensures
      var reply := ColonAndPort(":" + (tag + after));
      if LeadingNumberFits(tag) then reply == Fail(true) || (reply.Okay? && NoSlash(reply.rest)) else reply.Panic?
  {
    hide Token;
    TokenReads(':', tag + after);
    SameLeadingDigits(tag, after);
  }

  /** A name and tag without a host are tried as hostname and port: the tag's number must fit. */
  lemma NoHostReads(letters: Letters, r: DockerReference)
    requires ReferenceShapeOk(letters, r) && r.host == DockerIo(None)
    ensures HostParser(AfterHost(r)) == if TagOk(r) then Okay(DockerIo(None), AfterHost(r)) else Panic
  {
    hide DockerIoParser, OtherParser, Components, LeadingNumberFits;
    NoSlashAfterHost(letters, r);
    NoSlashNoComponent(AfterHost(r));
    DockerIoByComponents(AfterHost(r));
    NameStops(letters, r);
    NoSlashNoHost(r.name, r.tag, Prefixed("@", r.digest));
  }

  /** Every shape of reference is read back, except for a tag whose number does not fit, which panics. */
  lemma ReferenceReadBack(letters: Letters, r: DockerReference)
    requires ReferenceShapeOk(letters, r)
    ensures ReferenceParser(letters, PrintReference(r)) == if TagOk(r) then Okay(r, []) else Panic
  {
    hide HostParser, HostOk, PrintHost, Prefixed, NonEmptyRun, NoSlash, LeadingNumberFits;
    var s := PrintReference(r);
    Associative(PrintHost(r.host), r.name, Prefixed(":", r.tag));
    Associative(PrintHost(r.host), r.name + Prefixed(":", r.tag), Prefixed("@", r.digest));
    Associative(r.name, Prefixed(":", r.tag), Prefixed("@", r.digest));
    NoSlashAfterHost(letters, r);
    if r.host == DockerIo(None) {
      assert s == AfterHost(r) by { PrintsNoHost(AfterHost(r)); }
      NoHostReads(letters, r);
    } else {
      HostReadBack(r.host, AfterHost(r));
    }
    if TagOk(r) {
      AfterHostReads(letters, r, s);
    }
  }

  lemma PrintsNoHost(s: string)
    ensures PrintHost(DockerIo(None)) + s == s
  {
  }

  /** Everything read as a reference is well formed. */
  lemma ReferencesReadAreOk(letters: Letters, s: string)
    requires ReferenceParser(letters, s).Okay?
    ensures
      var r := ReferenceParser(letters, s).value;
      ReferenceShapeOk(letters, r) && TagOk(r)
  {
    hide HostParser, Many1, Token, HostOk, OtherParser, LeadingNumberFits;
    HostsReadAreOk(s);
    var r := ReferenceParser(letters, s).value;
    var afterHost := HostParser(s).rest;
    var afterName := Many1(NameChar(letters), afterHost).rest;
    Many1Read(NameChar(letters), afterHost, r.name, afterName);
    PartRead(':', NameChar(letters), afterName);
    var afterTag := Optional(Part(':', NameChar(letters), afterName), afterName).rest;
    PartRead('@', DigestChar(letters), afterTag);
    if r.host == DockerIo(None) && r.tag.Some? {
      OthersPanicOnTag(letters, r.name, r.tag.value, afterTag);
    }
  }

  lemma PartRead(separator: char, allowed: char -> bool, s: string)
    requires Optional(Part(separator, allowed, s), s).Okay?
    ensures
      var reply := Optional(Part(separator, allowed, s), s);
      reply.value.Some? ==> NonEmptyRun(allowed, reply.value.value) && StopsBefore(allowed, reply.rest)
                            && s == [separator] + (reply.value.value + reply.rest)
  {
    hide Many1, Token;
    if Part(separator, allowed, s).Okay? {
      TokenRead(separator, s);
      var rest := Token(separator, s).rest;
      Many1Read(allowed, rest, Many1(allowed, rest).value, Many1(allowed, rest).rest);
    }
  }

  /** A tag that was read without a host, and so without a panic, fits. */
  lemma OthersPanicOnTag(letters: Letters, name: string, tag: string, after: string)
    requires NonEmptyRun(NameChar(letters), name) && StopsBefore(NameChar(letters), after)
    requires !OtherParser(name + (":" + (tag + after))).Panic?
    ensures LeadingNumberFits(tag)
  {
    hide Many1, ColonAndPort, Run, LeadingNumberFits;
    Many1Reads(HostnameChar, name, ":" + (tag + after));
    LargePortPanics(tag, after);
  }

  lemma LargePortPanics(tag: string, after: string)
    requires StopsBefore(IsDigit, after)
    ensures ColonAndPort(":" + (tag + after)).Panic? <==> !LeadingNumberFits(tag)
  {
    hide Token;
    TokenReads(':', tag + after);
    SameLeadingDigits(tag, after);
  }

  // ----- Local paths

  lemma LocalPathReadBack(p: LocalPath)
    requires LocalPathOk(p)
    ensures LocalPathParser(PrintLocalPath(p)) == Okay(p, [])
  {
    hide Many1, Part, NonEmptyRun;
    LocalPathStops(p);
    Many1Reads(PathChar, p.path, Prefixed(":", p.reference));
    PartReads(':', AnyChar, p.reference, []);
    assert Prefixed(":", p.reference) + [] == Prefixed(":", p.reference);
  }

  lemma LocalPathStops(p: LocalPath)
    requires LocalPathOk(p)
    ensures StopsBefore(PathChar, Prefixed(":", p.reference))
    ensures p.reference.Some? ==> NonEmptyRun(AnyChar, p.reference.value)
  {
  }

  lemma LocalPathsReadAreOk(s: string)
    ensures !LocalPathParser(s).Panic?
    ensures LocalPathParser(s).Okay? ==> LocalPathOk(LocalPathParser(s).value)
  {
    if LocalPathParser(s).Okay? {
      var rest := Many1(PathChar, s).rest;
      Many1Read(PathChar, s, Many1(PathChar, s).value, rest);
      PartRead(':', AnyChar, rest);
    }
  }

  // ----- Names

  /** The scheme a name starts with decides how it is read. */
  lemma ByScheme(letters: Letters, s: string)
    ensures
      FromString(letters, s) ==
      if "docker://" <= s then Whole(ReferenceParser(letters, s[9..]), r => Docker(r))
      else if "oci:" <= s then Whole(LocalPathParser(s[4..]), p => Oci(p))
      else if "oci-archive:" <= s then Whole(LocalPathParser(s[12..]), p => OciArchive(p))
      else Rejected
  {
    hide ReferenceParser, LocalPathParser;
    if "docker://" <= s {
      assert s[0] == 'd';
    } else if "oci:" <= s {
      assert s[0] == 'o' && s[3] == ':';
      LocalPathsReadAreOk(s[4..]);
    } else if "oci-archive:" <= s {
      assert s[0] == 'o' && s[3] == '-';
    }
  }

  /** A reply to the whole of the rest. */
  function Whole<T>(reply: Reply<T>, make: T -> ImageName): Parse {
    match reply
    case Okay(value, rest) => if rest == [] then Parsed(make(value)) else Rejected
    case Fail(_) => Rejected
    case Panic => Panicked
  }

  /** Whatever is parsed is well formed. */
  lemma ParsedIsWellFormed(letters: Letters, s: string)
    requires FromString(letters, s).Parsed?
    ensures WellFormed(letters, FromString(letters, s).name)
  {
    hide FromString, ReferenceParser, LocalPathParser, ReferenceShapeOk, TagOk, LocalPathOk;
    ByScheme(letters, s);
    if "docker://" <= s {
      ReferencesReadAreOk(letters, s[9..]);
    } else if "oci:" <= s {
      LocalPathsReadAreOk(s[4..]);
    } else {
      LocalPathsReadAreOk(s[12..]);
    }
  }

  /** What printing and then parsing does to any name of the right shape. */
  lemma ShapeReadBack(letters: Letters, x: ImageName)
    requires x.Docker? ==> ReferenceShapeOk(letters, x.docker)
    requires x.Oci? ==> LocalPathOk(x.oci)
    requires x.OciArchive? ==> LocalPathOk(x.archive)
    ensures FromString(letters, Print(x)) == if x.Docker? && !TagOk(x.docker) then Panicked else Parsed(x)
  {
    hide FromString, ReferenceParser, LocalPathParser, PrintReference, PrintLocalPath;
    hide ReferenceShapeOk, TagOk, LocalPathOk;
    ByScheme(letters, Print(x));
    match x {
      case Docker(r) =>
        assert Print(x)[9..] == PrintReference(r);
        ReferenceReadBack(letters, r);
      case Oci(p) =>
        assert Print(x)[0] == 'o' && Print(x)[4..] == PrintLocalPath(p);
        LocalPathReadBack(p);
      case OciArchive(p) =>
        assert Print(x)[0] == 'o' && Print(x)[3] == '-' && Print(x)[12..] == PrintLocalPath(p);
        LocalPathReadBack(p);
    }
  }

  /** Printing and then parsing gives a name back exactly when it is well formed. */
  lemma RoundTripExactly(letters: Letters, x: ImageName)
    ensures FromString(letters, Print(x)) == Parsed(x) <==> WellFormed(letters, x)
  {
    hide FromString, Print, ReferenceShapeOk, TagOk, LocalPathOk;
    if WellFormed(letters, x) {
      ShapeReadBack(letters, x);
    } else if FromString(letters, Print(x)) == Parsed(x) {
      ParsedIsWellFormed(letters, Print(x));
    }
  }

  /** Parsing, printing and parsing again changes nothing. */
  lemma ParsedIsStable(letters: Letters, s: string)
    requires FromString(letters, s).Parsed?
    ensures FromString(letters, Print(FromString(letters, s).name)) == FromString(letters, s)
  {
    hide FromString, Print, WellFormed;
    ParsedIsWellFormed(letters, s);
    RoundTripExactly(letters, FromString(letters, s).name);
  }

  /** A plain name with a numeric tag, as `docker://foo:99999`, makes the parser panic. */
  lemma LargeTagPanics(letters: Letters)
    requires 'f' in letters && 'o' in letters
    ensures FromString(letters, "docker://foo:99999") == Panicked
  {
    hide FromString, LeadingNumberFits;
    var r := DockerReference(DockerIo(None), "foo", Some("99999"), None);
    NinesAreLarge();
    ShapeReadBack(letters, Docker(r));
    assert Print(Docker(r)) == "docker://foo:99999";
  }

  lemma NinesAreLarge()
    ensures !LeadingNumberFits("99999")
  {
    var s := "99999";
    RunOfAll(IsDigit, s, []);
    assert s + [] == s && s[..5] == s;
    assert s[..4][..3] == "999" && s[..4][3] == '9';
    assert Number("999") >= 900 by {
      assert "999"[..2] == "99" && "99"[..1] == "9" && "9"[..0] == "";
    }
    assert Number(s[..4]) >= 9000;
  }

  // ----- Panics

  /** After the scheme, a hostname, a colon and a number of up to five digits that is too large. */
  predicate LargePort(s: string) {
    var n := Run(HostnameChar, s);
    0 < n < |s| && s[n] == ':' && !LeadingNumberFits(s[n + 1..])
  }

  lemma OtherPanicsExactly(s: string)
    ensures OtherParser(s).Panic? <==> LargePort(s)
  {
    hide ColonAndPort, LeadingNumberFits;
    var n := Run(HostnameChar, s);
    if 0 < n < |s| && s[n] == ':' {
      LargePortPanics(s[n + 1..], []);
      assert s[n..] == ":" + (s[n + 1..] + []);
    } else if n > 0 {
      NoPort(s[n..]);
    }
  }

  lemma ColonStopsDockerIo(s: string)
    requires LargePort(s)
    ensures DockerIoParser(s).Fail?
  {
    hide DockerIoParser, Components, LeadingNumberFits;
    DockerIoByComponents(s);
    var n := Run(HostnameChar, s);
    ColonStopsComponent(s, s[..n], s[n..]);
    ComponentNeedsSlash(s);
  }

  lemma {:induction false} ColonStopsComponent(s: string, name: string, t: string)
    requires All(HostnameChar, name) && t != [] && t[0] == ':' && s == name + t
    ensures var m := Run(ComponentChar, s); m < |s| && s[m] != '/'
  {
    if '.' in name {
      DotStopsComponent(name, t);
    } else {
      assert All(ComponentChar, name);
      RunOfAll(ComponentChar, name, t);
    }
  }

  /** The parser panics on exactly these strings. */
  lemma PanicsExactly(letters: Letters, s: string)
    ensures FromString(letters, s).Panicked? <==> "docker://" <= s && LargePort(s[9..])
  {
    hide FromString, ReferenceParser, LocalPathParser, LargePort;
    ByScheme(letters, s);
    if "docker://" <= s {
      ReferencePanics(letters, s[9..]);
    } else if "oci:" <= s {
      LocalPathsReadAreOk(s[4..]);
    } else if "oci-archive:" <= s {
      LocalPathsReadAreOk(s[12..]);
    }
  }

  lemma PartsDoNotPanic(letters: Letters)
    ensures forall s :: !Many1(NameChar(letters), s).Panic?
    ensures forall s :: !Part(':', NameChar(letters), s).Panic? && !Part('@', DigestChar(letters), s).Panic?
  {
  }

  lemma ReferencePanics(letters: Letters, s: string)
    ensures ReferenceParser(letters, s).Panic? <==> LargePort(s)
  {
    hide OtherParser, DockerIoParser, LargePort, Many1, Part, Components;
    PartsDoNotPanic(letters);
    OtherPanicsExactly(s);
    DockerIoByComponents(s);
    if LargePort(s) {
      ColonStopsDockerIo(s);
    }
  }
}
