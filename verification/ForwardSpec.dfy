/** Port-forward specifications: `bind_addr:bind_port:target_host:target_port`. */
module ForwardSpec {
  import opened Prelude
  import opened Text

  datatype Kind = Local | Remote

  datatype PortForwardSpec =
    PortForwardSpec(kind: Kind, bindAddr: string, bindPort: u16, targetHost: string, targetPort: u16)

  function ParsePort(s: string): Option<u16> {
    ParseUnsigned(s, TWO_16)
  }

  /** `PortForwardSpec::local` and `::remote`; `None` is the invalid-spec error. */
  function ParseSpec(kind: Kind, spec: string): Option<PortForwardSpec> {
    var parts := Split(spec, ':');
    if |parts| != 4 then None else
      match (ParsePort(parts[1]), ParsePort(parts[3]))
      case (Some(bindPort), Some(targetPort)) =>
        Some(PortForwardSpec(kind, parts[0], bindPort, parts[2], targetPort))
      case _ => None
  }

  /** The displayed text after its flag. */
  function Body(spec: PortForwardSpec): string {
    spec.bindAddr + ":" + (Show(spec.bindPort) + ":" + (spec.targetHost + ":" + Show(spec.targetPort)))
  }

  function Flag(kind: Kind): string {
    match kind
    case Local => "-L "
    case Remote => "-R "
  }

  function Display(spec: PortForwardSpec): string {
    Flag(spec.kind) + Body(spec)
  }

  predicate ColonFree(spec: PortForwardSpec) {
    ':' !in spec.bindAddr && ':' !in spec.targetHost
  }

  lemma SplitBody(spec: PortForwardSpec)
    ensures Split(Body(spec), ':') ==
            Split(spec.bindAddr, ':') + ([Show(spec.bindPort)] + (Split(spec.targetHost, ':') + [Show(spec.targetPort)]))
  {
    SplitWhole(Show(spec.bindPort), ':');
    SplitWhole(Show(spec.targetPort), ':');
    var tail := spec.targetHost + ":" + Show(spec.targetPort);
    SplitAt(spec.targetHost, ':', Show(spec.targetPort));
    SplitAt(Show(spec.bindPort), ':', tail);
    SplitAt(spec.bindAddr, ':', Show(spec.bindPort) + ":" + tail);
  }

  /** A specification comes back from its own display precisely when its hosts are free of colons. */
  lemma ParsesBackIffColonFree(spec: PortForwardSpec)
    ensures ParseSpec(spec.kind, Body(spec)) == Some(spec) <==> ColonFree(spec)
  {
    SplitBody(spec);
    ParseShow(spec.bindPort, TWO_16);
    ParseShow(spec.targetPort, TWO_16);
    if ColonFree(spec) {
      SplitWhole(spec.bindAddr, ':');
      SplitWhole(spec.targetHost, ':');
    } else if ':' in spec.bindAddr {
      SplitMany(spec.bindAddr, ':');
    } else {
      SplitMany(spec.targetHost, ':');
    }
  }

  /** Whatever is accepted has colon-free hosts, so displaying and parsing it again changes nothing. */
  lemma AcceptedNormalises(kind: Kind, text: string)
    requires ParseSpec(kind, text).Some?
    ensures var spec := ParseSpec(kind, text).value;
            ColonFree(spec) && spec.kind == kind && ParseSpec(kind, Body(spec)) == Some(spec)
  {
    var spec := ParseSpec(kind, text).value;
    PartsLackSeparator(text, ':');
    ParsesBackIffColonFree(spec);
  }

  /** Accepted specifications that display alike are the same, kind included. */
  lemma DisplayInjective(a: PortForwardSpec, b: PortForwardSpec)
    requires ColonFree(a) && ColonFree(b) && Display(a) == Display(b)
    ensures a == b
  {
    assert Display(a)[1] == Display(b)[1];
    assert Display(a)[3..] == Body(a) && Display(b)[3..] == Body(b);
    ParsesBackIffColonFree(a);
    ParsesBackIffColonFree(b);
  }

  /**
   Exactly four colon-separated fields with two port numbers are accepted, and
   give exactly the specification they spell.
   */
  lemma AcceptedIff(kind: Kind, text: string, spec: PortForwardSpec)
    ensures ParseSpec(kind, text) == Some(spec) <==>
            && spec.kind == kind && ColonFree(spec)
            && exists bind: string, target: string ::
                 && ParsePort(bind) == Some(spec.bindPort) && ParsePort(target) == Some(spec.targetPort)
                 && ':' !in bind && ':' !in target
                 && text == Join([spec.bindAddr, bind, spec.targetHost, target], ':')
  {
    var parts := Split(text, ':');
    SplitIff(text, ':', parts);
    if ParseSpec(kind, text) == Some(spec) {
      assert parts == [spec.bindAddr, parts[1], spec.targetHost, parts[3]];
      assert ':' !in parts[0] && ':' !in parts[1] && ':' !in parts[2] && ':' !in parts[3];
    }
    forall bind: string, target: string |
      && ColonFree(spec) && ':' !in bind && ':' !in target
      && text == Join([spec.bindAddr, bind, spec.targetHost, target], ':')
      ensures parts == [spec.bindAddr, bind, spec.targetHost, target]
    {
      SplitIff(text, ':', [spec.bindAddr, bind, spec.targetHost, target]);
    }
  }

  /** What is displayed: the flag of the kind, then the four fields. */
  lemma DisplayMeaning(spec: PortForwardSpec)
    ensures Display(spec) ==
            (if spec.kind == Local then "-L " else "-R ") +
            Join([spec.bindAddr, Show(spec.bindPort), spec.targetHost, Show(spec.targetPort)], ':')
  {
    var (a, b, c, d) := (spec.bindAddr, Show(spec.bindPort), spec.targetHost, Show(spec.targetPort));
    assert [a, b, c, d][1..] == [b, c, d] && [b, c, d][1..] == [c, d] && [c, d][1..] == [d];
    assert Join([c, d], ':') == c + ":" + d;
    assert Join([b, c, d], ':') == b + ":" + (c + ":" + d);
    assert Join([a, b, c, d], ':') == a + ":" + (b + ":" + (c + ":" + d));
  }
}
