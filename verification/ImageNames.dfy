/**
 Container image names (`maelstrom-container/src/image_name.rs`): the grammar with its ordered
 choices, the printer, and exactly which names survive being printed and parsed.
 */
module ImageNames {
  import opened Wrappers
  import opened Integers
  import opened Parsers

  /** The characters that count as alphanumeric: the digits are, the separators are not. */
  type Letters = letters: set<char> |
    '/' !in letters && '@' !in letters && ':' !in letters && forall c :: IsDigit(c) ==> c in letters
    witness set c | '0' <= c <= '9'

  datatype Host = DockerIo(path: Option<string>) | Other(name: string, port: Option<u16>, otherPath: Option<string>)

  datatype DockerReference = DockerReference(host: Host, name: string, tag: Option<string>, digest: Option<string>)

  datatype LocalPath = LocalPath(path: string, reference: Option<string>)

  datatype ImageName = Docker(docker: DockerReference) | Oci(oci: LocalPath) | OciArchive(archive: LocalPath)

  // ----- The printer

  function Prefixed(separator: string, s: Option<string>): string {
    match s
    case None => ""
    case Some(text) => separator + text
  }

  function PrintHost(h: Host): string {
    match h
    case DockerIo(None) => ""
    case DockerIo(Some(path)) => path + "/"
    case Other(name, port, path) =>
      name + Prefixed(":", if port.Some? then Some(Decimal(port.value)) else None) + Prefixed("/", path) + "/"
  }

  function PrintReference(r: DockerReference): string {
    PrintHost(r.host) + r.name + Prefixed(":", r.tag) + Prefixed("@", r.digest)
  }

  function PrintLocalPath(p: LocalPath): string {
    p.path + Prefixed(":", p.reference)
  }

  function Print(x: ImageName): string {
    match x
    case Docker(r) => "docker://" + PrintReference(r)
    case Oci(p) => "oci:" + PrintLocalPath(p)
    case OciArchive(p) => "oci-archive:" + PrintLocalPath(p)
  }

  // ----- The grammar

  predicate ComponentChar(c: char) { c != '.' && c != '@' && c != ':' && c != '/' }

  predicate HostnameChar(c: char) { c != '/' && c != '@' && c != ':' }

  predicate PathChar(c: char) { c != ':' }

  predicate AnyChar(c: char) { true }

  function NameChar(letters: Letters): char -> bool {
    c => c in letters || c == '_' || c == '.' || c == '-'
  }

  function DigestChar(letters: Letters): char -> bool {
    c => c in letters || c == ':'
  }

  const LOCALHOST := "localhost"

  /** A component and the slash after it. */
  function ComponentAndSlash(s: string): Reply<string> {
    var (component, rest) :- Many1(ComponentChar, s);
    var (_, after) :- Following(Token('/', rest), s, rest);
    Okay(component, after)
  }

  /** Many components, each with its slash; an unfinished one is left unread. */
  function Components(s: string): (r: (seq<string>, string))
    ensures |r.1| <= |s|
    decreases |s|
  {
    match Attempt(ComponentAndSlash(s))
    case Okay(component, rest) =>
      if |rest| < |s| then
        var more := Components(rest);
        ([component] + more.0, more.1)
      else
        ([], s)
    case _ => ([], s)
  }

  function Join(components: seq<string>): string
    requires components != []
  {
    if |components| == 1 then components[0] else components[0] + "/" + Join(components[1..])
  }

  /** A component and its slash, unless they spell the hostname `localhost`. */
  function NotHostname(s: string): Reply<string> {
    if Text(LOCALHOST + "/", s).Okay? then Fail(false) else ComponentAndSlash(s)
  }

  function DockerIoParser(s: string): Reply<Host> {
    var (component, rest) :- NotHostname(s);
    var (more, after) := Components(rest);
    Okay(DockerIo(Some(Join([component] + more))), after)
  }

  function AtMostFive(n: nat): nat { if n < 5 then n else 5 }

  /** One to five digits; a number that does not fit sixteen bits panics. */
  function Port(s: string): Reply<u16> {
    var n := AtMostFive(Run(IsDigit, s));
    if n == 0 then Fail(false)
    else if Number(s[..n]) < 0x1_0000 then Okay(Number(s[..n]), s[n..])
    else Panic
  }

  function ColonAndPort(s: string): Reply<u16> {
    var (_, rest) :- Token(':', s);
    Following(Port(rest), s, rest)
  }

  function OtherParser(s: string): Reply<Host> {
    var (name, afterName) :- Many1(HostnameChar, s);
    var (port, afterPort) :- Following(Optional(ColonAndPort(afterName), afterName), s, afterName);
    var (_, rest) :- Following(Token('/', afterPort), s, afterPort);
    var (path, after) := Components(rest);
    Okay(Other(name, port, if path == [] then None else Some(Join(path))), after)
  }

  function HostParser(s: string): Reply<Host> {
    var (host, rest) :- Optional(Attempt(Or(Attempt(DockerIoParser(s)), Attempt(OtherParser(s)))), s);
    Okay(if host.Some? then host.value else DockerIo(None), rest)
  }

  /** The separator and then a run of allowed characters. */
  function Part(separator: char, allowed: char -> bool, s: string): Reply<string> {
    var (_, rest) :- Token(separator, s);
    Following(Many1(allowed, rest), s, rest)
  }

  function ReferenceParser(letters: Letters, s: string): Reply<DockerReference> {
    var (host, afterHost) :- HostParser(s);
    var (name, afterName) :- Following(Many1(NameChar(letters), afterHost), s, afterHost);
    var (tag, afterTag) :- Following(Optional(Part(':', NameChar(letters), afterName), afterName), s, afterName);
    var (digest, rest) :- Following(Optional(Part('@', DigestChar(letters), afterTag), afterTag), s, afterTag);
    Okay(DockerReference(host, name, tag, digest), rest)
  }

  function LocalPathParser(s: string): Reply<LocalPath> {
    var (path, afterPath) :- Many1(PathChar, s);
    var (reference, rest) :- Following(Optional(Part(':', AnyChar, afterPath), afterPath), s, afterPath);
    Okay(LocalPath(path, reference), rest)
  }

  function Schemed<T>(scheme: string, parser: string -> Reply<T>, make: T -> ImageName, s: string): Reply<ImageName> {
    var (_, rest) :- Text(scheme, s);
    var (value, after) :- Following(parser(rest), s, rest);
    Okay(make(value), after)
  }

  function NameParser(letters: Letters, s: string): Reply<ImageName> {
    Or(Attempt(Schemed("docker://", r => ReferenceParser(letters, r), (r: DockerReference) => Docker(r), s)),
       Or(Attempt(Schemed("oci:", LocalPathParser, (p: LocalPath) => Oci(p), s)),
          Schemed("oci-archive:", LocalPathParser, (p: LocalPath) => OciArchive(p), s)))
  }

  datatype Parse = Parsed(name: ImageName) | Rejected | Panicked

  /** `FromStr`: the whole string must be read. */
  function FromString(letters: Letters, s: string): Parse {
    match NameParser(letters, s)
    case Okay(name, rest) => if rest == [] then Parsed(name) else Rejected
    case Fail(_) => Rejected
    case Panic => Panicked
  }

  // ----- Well-formed names

  /** Non-empty components between slashes. */
  predicate PathOk(p: string)
    decreases |p|
  {
    var n := Run(ComponentChar, p);
    n > 0 && (n == |p| || (p[n] == '/' && PathOk(p[n + 1..])))
  }

  function FirstComponent(p: string): string { p[..Run(ComponentChar, p)] }

  /** The number that `port` would read at the front of a tag fits sixteen bits. */
  predicate LeadingNumberFits(s: string) {
    Number(s[..AtMostFive(Run(IsDigit, s))]) < 0x1_0000
  }

  predicate HostOk(h: Host) {
    match h
    case DockerIo(None) => true
    case DockerIo(Some(path)) => PathOk(path) && FirstComponent(path) != LOCALHOST
    case Other(name, port, path) =>
      && NonEmptyRun(HostnameChar, name)
      && (port.None? ==> '.' in name || name == LOCALHOST)
      && (path.Some? ==> PathOk(path.value))
  }

  predicate ReferenceShapeOk(letters: Letters, r: DockerReference) {
    && HostOk(r.host)
    && NonEmptyRun(NameChar(letters), r.name)
    && (r.tag.Some? ==> NonEmptyRun(NameChar(letters), r.tag.value))
    && (r.digest.Some? ==> NonEmptyRun(DigestChar(letters), r.digest.value))
  }

  /** Without a host, the name and tag are first tried as a hostname and port. */
  predicate TagOk(r: DockerReference) {
    r.host == DockerIo(None) && r.tag.Some? ==> LeadingNumberFits(r.tag.value)
  }

  predicate LocalPathOk(p: LocalPath) {
    NonEmptyRun(PathChar, p.path) && (p.reference.Some? ==> p.reference.value != [])
  }

  predicate WellFormed(letters: Letters, x: ImageName) {
    match x
    case Docker(r) => ReferenceShapeOk(letters, r) && TagOk(r)
    case Oci(p) => LocalPathOk(p)
    case OciArchive(p) => LocalPathOk(p)
  }
}
