/** The alignment definitions: families of modules released together, each
    with the bom that aligns them (if the project publishes one) and the
    metadata rule class that adds the alignment. */
module AlignmentDefinitions {
  import opened Wrappers
  import opened JavaStrings
  import opened Coordinates

  /** The metadata rule class a definition registers. */
  datatype RuleClass =
    | AsmAlignmentRule
    | AlignmentDefinitionRule
    | JettyAlignmentRule
    | Log4J2Alignment
    | Slf4J2Alignment
    | Slf4JAlignment

  datatype AlignmentDefinition =
    | ASM
    | JERSEY
    | JETTY
    | LOG4J2
    | SSHD
    | SLF4J2
    | SLF4J

  /** `AlignmentDefinition.values()`: every constant in declaration order. */
  const AllAlignments: seq<AlignmentDefinition> := [ASM, JERSEY, JETTY, LOG4J2, SSHD, SLF4J2, SLF4J]

  /** The bom coordinate as the table declares it, `null` for the
      definitions built with the bom-less constructor. The Jersey family
      names Jetty's bom. Every bom is a "-bom" module. */
  function BomAsWritten(a: AlignmentDefinition): (r: Option<Coord>)
    ensures r.None? <==> a == SSHD || a == SLF4J
    ensures r.Some? ==> EndsWith(r.value.name, "-bom")
  {
    match a
    case ASM => Some(Coord("org.ow2.asm", "asm-bom"))
    case JERSEY => Some(Coord("org.eclipse.jetty", "jetty-bom"))
    case JETTY => Some(Coord("org.eclipse.jetty", "jetty-bom"))
    case LOG4J2 => Some(Coord("org.apache.logging.log4j", "log4j-bom"))
    case SSHD => None
    case SLF4J2 => Some(Coord("org.slf4j", "slf4j-bom"))
    case SLF4J => None
  }

  /** The bom each family publishes: the table, with Jersey's own bom for
      the Jersey family. The rules use the table as declared. The correction
      touches only Jersey (and every bom then belongs to its family, see
      `BomsInFamily`). */
  function Bom(a: AlignmentDefinition): (r: Option<Coord>)
    ensures r.Some? <==> BomAsWritten(a).Some?
    ensures a != JERSEY ==> r == BomAsWritten(a)
  {
    match a
    case ASM => Some(Coord("org.ow2.asm", "asm-bom"))
    case JERSEY => Some(Coord("org.glassfish.jersey", "jersey-bom"))
    case JETTY => Some(Coord("org.eclipse.jetty", "jetty-bom"))
    case LOG4J2 => Some(Coord("org.apache.logging.log4j", "log4j-bom"))
    case SSHD => None
    case SLF4J2 => Some(Coord("org.slf4j", "slf4j-bom"))
    case SLF4J => None
  }

  /** `hasBom()`: false exactly for the two definitions built with the
      bom-less constructor. */
  function HasBom(a: AlignmentDefinition): (r: bool)
    ensures r <==> a != SSHD && a != SLF4J
  {
    BomAsWritten(a).Some?
  }

  /** `getRuleClass()`. */
  function RuleClassOf(a: AlignmentDefinition): RuleClass {
    match a
    case ASM => AsmAlignmentRule
    case JERSEY => AlignmentDefinitionRule
    case JETTY => JettyAlignmentRule
    case LOG4J2 => Log4J2Alignment
    case SSHD => AlignmentDefinitionRule
    case SLF4J2 => Slf4J2Alignment
    case SLF4J => Slf4JAlignment
  }

  /** `getModules()`: the modules in declaration order. Every family has
      members. */
  function Modules(a: AlignmentDefinition): (r: seq<string>)
    ensures |r| > 0
  {
    match a
    case ASM => AsmModules
    case JERSEY => JerseyModules
    case JETTY => JettyModules
    case LOG4J2 => Log4j2Modules
    case SSHD => SshdModules
    case SLF4J2 => Slf4j2Modules
    case SLF4J => Slf4jModules
  }

  // The module lists are written in chunks of at most eight entries, in
  // declaration order.


  const AsmModules: seq<string> := AsmModules0
  const AsmModules0: seq<string> := [
    "org.ow2.asm:asm",
    "org.ow2.asm:asm-tree",
    "org.ow2.asm:asm-analysis",
    "org.ow2.asm:asm-util",
    "org.ow2.asm:asm-commons"
  ]

  const JerseyModules: seq<string> := JerseyModules0 + JerseyModules1 + JerseyModules2 + JerseyModules3 + JerseyModules4 + JerseyModules5 + JerseyModules6 + JerseyModules7 + JerseyModules8 + JerseyModules9
  const JerseyModules0: seq<string> := [
    "org.glassfish.jersey.core:jersey-common",
    "org.glassfish.jersey.core:jersey-client",
    "org.glassfish.jersey.core:jersey-server",
    "org.glassfish.jersey.bundles:jaxrs-ri",
    "org.glassfish.jersey.connectors:jersey-apache-connector",
    "org.glassfish.jersey.connectors:jersey-apache5-connector",
    "org.glassfish.jersey.connectors:jersey-helidon-connector",
    "org.glassfish.jersey.connectors:jersey-grizzly-connector"
  ]
  const JerseyModules1: seq<string> := [
    "org.glassfish.jersey.connectors:jersey-jnh-connector",
    "org.glassfish.jersey.connectors:jersey-jetty-connector",
    "org.glassfish.jersey.connectors:jersey-jetty11-connector",
    "org.glassfish.jersey.connectors:jersey-jetty-http2-connector",
    "org.glassfish.jersey.connectors:jersey-jdk-connector",
    "org.glassfish.jersey.connectors:jersey-netty-connector",
    "org.glassfish.jersey.containers:jersey-container-jetty-http",
    "org.glassfish.jersey.containers:jersey-container-jetty11-http"
  ]
  const JerseyModules2: seq<string> := [
    "org.glassfish.jersey.containers:jersey-container-jetty-http2",
    "org.glassfish.jersey.containers:jersey-container-grizzly2-http",
    "org.glassfish.jersey.containers:jersey-container-grizzly2-servlet",
    "org.glassfish.jersey.containers:jersey-container-jetty-servlet",
    "org.glassfish.jersey.containers:jersey-container-jdk-http",
    "org.glassfish.jersey.containers:jersey-container-netty-http",
    "org.glassfish.jersey.containers:jersey-container-servlet",
    "org.glassfish.jersey.containers:jersey-container-servlet-core"
  ]
  const JerseyModules3: seq<string> := [
    "org.glassfish.jersey.containers:jersey-container-simple-http",
    "org.glassfish.jersey.containers.glassfish:jersey-gf-ejb",
    "org.glassfish.jersey.ext:jersey-bean-validation",
    "org.glassfish.jersey.ext:jersey-entity-filtering",
    "org.glassfish.jersey.ext:jersey-micrometer",
    "org.glassfish.jersey.ext:jersey-metainf-services",
    "org.glassfish.jersey.ext.microprofile:jersey-mp-config",
    "org.glassfish.jersey.ext:jersey-mvc"
  ]
  const JerseyModules4: seq<string> := [
    "org.glassfish.jersey.ext:jersey-mvc-bean-validation",
    "org.glassfish.jersey.ext:jersey-mvc-freemarker",
    "org.glassfish.jersey.ext:jersey-mvc-jsp",
    "org.glassfish.jersey.ext:jersey-mvc-mustache",
    "org.glassfish.jersey.ext:jersey-proxy-client",
    "org.glassfish.jersey.ext:jersey-spring6",
    "org.glassfish.jersey.ext:jersey-declarative-linking",
    "org.glassfish.jersey.ext:jersey-wadl-doclet"
  ]
  const JerseyModules5: seq<string> := [
    "org.glassfish.jersey.ext.cdi:jersey-weld2-se",
    "org.glassfish.jersey.ext.cdi:jersey-cdi1x",
    "org.glassfish.jersey.ext.cdi:jersey-cdi1x-transaction",
    "org.glassfish.jersey.ext.cdi:jersey-cdi1x-validation",
    "org.glassfish.jersey.ext.cdi:jersey-cdi1x-servlet",
    "org.glassfish.jersey.ext.cdi:jersey-cdi1x-ban-custom-hk2-binding",
    "org.glassfish.jersey.ext.cdi:jersey-cdi-rs-inject",
    "org.glassfish.jersey.ext.rx:jersey-rx-client-guava"
  ]
  const JerseyModules6: seq<string> := [
    "org.glassfish.jersey.ext.rx:jersey-rx-client-rxjava",
    "org.glassfish.jersey.ext.rx:jersey-rx-client-rxjava2",
    "org.glassfish.jersey.ext.microprofile:jersey-mp-rest-client",
    "org.glassfish.jersey.media:jersey-media-jaxb",
    "org.glassfish.jersey.media:jersey-media-json-jackson",
    "org.glassfish.jersey.media:jersey-media-json-jettison",
    "org.glassfish.jersey.media:jersey-media-json-processing",
    "org.glassfish.jersey.media:jersey-media-json-gson"
  ]
  const JerseyModules7: seq<string> := [
    "org.glassfish.jersey.media:jersey-media-json-binding",
    "org.glassfish.jersey.media:jersey-media-kryo",
    "org.glassfish.jersey.media:jersey-media-moxy",
    "org.glassfish.jersey.media:jersey-media-multipart",
    "org.glassfish.jersey.media:jersey-media-sse",
    "org.glassfish.jersey.security:oauth1-client",
    "org.glassfish.jersey.security:oauth1-server",
    "org.glassfish.jersey.security:oauth1-signature"
  ]
  const JerseyModules8: seq<string> := [
    "org.glassfish.jersey.security:oauth2-client",
    "org.glassfish.jersey.inject:jersey-hk2",
    "org.glassfish.jersey.inject:jersey-cdi2-se",
    "org.glassfish.jersey.test-framework:jersey-test-framework-core",
    "org.glassfish.jersey.test-framework.providers:jersey-test-framework-provider-bundle",
    "org.glassfish.jersey.test-framework.providers:jersey-test-framework-provider-external",
    "org.glassfish.jersey.test-framework.providers:jersey-test-framework-provider-grizzly2",
    "org.glassfish.jersey.test-framework.providers:jersey-test-framework-provider-inmemory"
  ]
  const JerseyModules9: seq<string> := [
    "org.glassfish.jersey.test-framework.providers:jersey-test-framework-provider-jdk-http",
    "org.glassfish.jersey.test-framework.providers:jersey-test-framework-provider-simple",
    "org.glassfish.jersey.test-framework.providers:jersey-test-framework-provider-jetty",
    "org.glassfish.jersey.test-framework.providers:jersey-test-framework-provider-jetty-http2",
    "org.glassfish.jersey.test-framework.providers:jersey-test-framework-provider-netty",
    "org.glassfish.jersey.test-framework:jersey-test-framework-util"
  ]

  const JettyModules: seq<string> := JettyModules0 + JettyModules1 + JettyModules2 + JettyModules3 + JettyModules4 + JettyModules5 + JettyModules6
  const JettyModules0: seq<string> := [
    "org.eclipse.jetty:jetty-alpn-client",
    "org.eclipse.jetty:jetty-alpn-conscrypt-client",
    "org.eclipse.jetty:jetty-alpn-conscrypt-server",
    "org.eclipse.jetty:jetty-alpn-java-client",
    "org.eclipse.jetty:jetty-alpn-java-server",
    "org.eclipse.jetty:jetty-alpn-server",
    "org.eclipse.jetty:jetty-client",
    "org.eclipse.jetty:jetty-deploy"
  ]
  const JettyModules1: seq<string> := [
    "org.eclipse.jetty:jetty-http",
    "org.eclipse.jetty:jetty-http-spi",
    "org.eclipse.jetty:jetty-http-tools",
    "org.eclipse.jetty:jetty-io",
    "org.eclipse.jetty:jetty-jmx",
    "org.eclipse.jetty:jetty-jndi",
    "org.eclipse.jetty:jetty-keystore",
    "org.eclipse.jetty:jetty-openid"
  ]
  const JettyModules2: seq<string> := [
    "org.eclipse.jetty:jetty-osgi",
    "org.eclipse.jetty:jetty-plus",
    "org.eclipse.jetty:jetty-proxy",
    "org.eclipse.jetty:jetty-rewrite",
    "org.eclipse.jetty:jetty-security",
    "org.eclipse.jetty:jetty-server",
    "org.eclipse.jetty:jetty-session",
    "org.eclipse.jetty:jetty-slf4j-impl"
  ]
  const JettyModules3: seq<string> := [
    "org.eclipse.jetty:jetty-start",
    "org.eclipse.jetty:jetty-unixdomain-server",
    "org.eclipse.jetty:jetty-util",
    "org.eclipse.jetty:jetty-util-ajax",
    "org.eclipse.jetty:jetty-xml",
    "org.eclipse.jetty.demos:jetty-demo-handler",
    "org.eclipse.jetty.fcgi:jetty-fcgi-client",
    "org.eclipse.jetty.fcgi:jetty-fcgi-proxy"
  ]
  const JettyModules4: seq<string> := [
    "org.eclipse.jetty.fcgi:jetty-fcgi-server",
    "org.eclipse.jetty.http2:jetty-http2-client",
    "org.eclipse.jetty.http2:jetty-http2-client-transport",
    "org.eclipse.jetty.http2:jetty-http2-common",
    "org.eclipse.jetty.http2:jetty-http2-hpack",
    "org.eclipse.jetty.http2:jetty-http2-server",
    "org.eclipse.jetty.http3:jetty-http3-client",
    "org.eclipse.jetty.http3:jetty-http3-client-transport"
  ]
  const JettyModules5: seq<string> := [
    "org.eclipse.jetty.http3:jetty-http3-common",
    "org.eclipse.jetty.http3:jetty-http3-qpack",
    "org.eclipse.jetty.http3:jetty-http3-server",
    "org.eclipse.jetty.quic:jetty-quic-client",
    "org.eclipse.jetty.quic:jetty-quic-common",
    "org.eclipse.jetty.quic:jetty-quic-quiche-common",
    "org.eclipse.jetty.quic:jetty-quic-quiche-foreign",
    "org.eclipse.jetty.quic:jetty-quic-quiche-jna"
  ]
  const JettyModules6: seq<string> := [
    "org.eclipse.jetty.quic:jetty-quic-server",
    "org.eclipse.jetty.websocket:jetty-websocket-core-client",
    "org.eclipse.jetty.websocket:jetty-websocket-core-common",
    "org.eclipse.jetty.websocket:jetty-websocket-core-server",
    "org.eclipse.jetty.websocket:jetty-websocket-jetty-api",
    "org.eclipse.jetty.websocket:jetty-websocket-jetty-client",
    "org.eclipse.jetty.websocket:jetty-websocket-jetty-common",
    "org.eclipse.jetty.websocket:jetty-websocket-jetty-server"
  ]

  const Log4j2Modules: seq<string> := Log4j2Modules0 + Log4j2Modules1
  const Log4j2Modules0: seq<string> := [
    "org.apache.logging.log4j:log4j-api",
    "org.apache.logging.log4j:log4j-core",
    "org.apache.logging.log4j:log4j-1.2-api",
    "org.apache.logging.log4j:log4j-jcl",
    "org.apache.logging.log4j:log4j-flume-ng",
    "org.apache.logging.log4j:log4j-taglib",
    "org.apache.logging.log4j:log4j-jmx-gui",
    "org.apache.logging.log4j:log4j-slf4j-impl"
  ]
  const Log4j2Modules1: seq<string> := [
    "org.apache.logging.log4j:log4j-web",
    "org.apache.logging.log4j:log4j-nosql"
  ]

  const SshdModules: seq<string> := SshdModules0 + SshdModules1
  const SshdModules0: seq<string> := [
    "org.apache.sshd:sshd-cli",
    "org.apache.sshd:sshd-common",
    "org.apache.sshd:sshd-contrib",
    "org.apache.sshd:sshd-core",
    "org.apache.sshd:sshd-git",
    "org.apache.sshd:sshd-ldap",
    "org.apache.sshd:sshd-mina",
    "org.apache.sshd:sshd-netty"
  ]
  const SshdModules1: seq<string> := [
    "org.apache.sshd:sshd-openpgp",
    "org.apache.sshd:sshd-osgi",
    "org.apache.sshd:sshd-pam",
    "org.apache.sshd:sshd-putty",
    "org.apache.sshd:sshd-scp",
    "org.apache.sshd:sshd-sftp",
    "org.apache.sshd:sshd-spring-sftp"
  ]

  const Slf4j2Modules: seq<string> := Slf4j2Modules0 + Slf4j2Modules1
  const Slf4j2Modules0: seq<string> := [
    "org.slf4j:slf4j-api",
    "org.slf4j:slf4j-simple",
    "org.slf4j:slf4j-nop",
    "org.slf4j:slf4j-jdk14",
    "org.slf4j:slf4j-jdk-platform-logging",
    "org.slf4j:slf4j-log4j12",
    "org.slf4j:slf4j-reload4j",
    "org.slf4j:slf4j-ext"
  ]
  const Slf4j2Modules1: seq<string> := [
    "org.slf4j:jcl-over-slf4j",
    "org.slf4j:log4j-over-slf4j",
    "org.slf4j:jul-to-slf4j",
    "org.slf4j:osgi-over-slf4j"
  ]

  const Slf4jModules: seq<string> := Slf4jModules0 + Slf4jModules1 + Slf4jModules2
  const Slf4jModules0: seq<string> := [
    "org.slf4j:integration",
    "org.slf4j:jcl-over-slf4j",
    "org.slf4j:jcl104-over-slf4j",
    "org.slf4j:jul-to-slf4j",
    "org.slf4j:log4j-over-slf4j",
    "org.slf4j:nlog4j",
    "org.slf4j:osgi-over-slf4j",
    "org.slf4j:slf4j-android"
  ]
  const Slf4jModules1: seq<string> := [
    "org.slf4j:slf4j-api",
    "org.slf4j:slf4j-archetype",
    "org.slf4j:slf4j-converter",
    "org.slf4j:slf4j-ext",
    "org.slf4j:slf4j-jcl",
    "org.slf4j:slf4j-jdk-platform-logging",
    "org.slf4j:slf4j-jdk14",
    "org.slf4j:slf4j-log4j12"
  ]
  const Slf4jModules2: seq<string> := [
    "org.slf4j:slf4j-migrator",
    "org.slf4j:slf4j-nop",
    "org.slf4j:slf4j-reload4j",
    "org.slf4j:slf4j-simple"
  ]

  // ---------------------------------------------------------------------
  // Facts about the table
  // ---------------------------------------------------------------------

  /** Exactly SSHD and SLF4J use the bom-less constructor; the correction of
      the Jersey bom changes no other entry. */
  lemma BomPresence(a: AlignmentDefinition)
    ensures HasBom(a) <==> a != SSHD && a != SLF4J
    ensures Bom(a).Some? <==> HasBom(a)
    ensures a != JERSEY ==> BomAsWritten(a) == Bom(a)
  {
  }

  /** A bom belongs to a family when its group starts the family's first
      module. */
  predicate BomInFamily(bom: Coord, modules: seq<string>) {
    |modules| > 0 && StartsWith(modules[0], bom.group)
  }

  /** With the correction, every bom belongs to the family it aligns. */
  lemma BomsInFamily(a: AlignmentDefinition)
    ensures Bom(a).Some? ==> BomInFamily(Bom(a).value, Modules(a))
  {
    match a
    case ASM => FirstModuleOf(AsmModules0, []);
    case JERSEY => FirstModuleOf(JerseyModules0, JerseyModules[|JerseyModules0|..]);
    case JETTY => FirstModuleOf(JettyModules0, JettyModules[|JettyModules0|..]);
    case LOG4J2 => FirstModuleOf(Log4j2Modules0, Log4j2Modules1);
    case SSHD =>
    case SLF4J2 => FirstModuleOf(Slf4j2Modules0, Slf4j2Modules1);
    case SLF4J =>
  }

  /** A list made of a non-empty first chunk starts with that chunk's first
      module. */
  lemma FirstModuleOf(first: seq<string>, rest: seq<string>)
    requires |first| > 0
    ensures (first + rest)[0] == first[0]
  {
  }

  /** As declared, the Jersey family is aligned by Jetty's bom, which does
      not belong to it; Jersey's own bom does. */
  lemma JerseyBomAsWrittenOutsideFamily()
    ensures BomAsWritten(JERSEY) == BomAsWritten(JETTY)
    ensures !BomInFamily(BomAsWritten(JERSEY).value, Modules(JERSEY))
    ensures BomInFamily(Bom(JERSEY).value, Modules(JERSEY))
  {
    FirstModuleOf(JerseyModules0, JerseyModules[|JerseyModules0|..]);
    assert JerseyModules0[0][4] == 'g';
  }
}
