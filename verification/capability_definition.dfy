/** The capability definitions: every known capability conflict, with the
    modules that provide the capability, the strategy that resolves the
    conflict by default and the metadata rule that adds the capability. */
module CapabilityDefinitions {
  import opened Wrappers
  import opened JavaStrings
  import opened Coordinates
  import L = LoggingModuleIdentifiers

  /** How a conflict on the capability is resolved when the build says nothing. */
  datatype DefaultResolutionStrategy = HIGHEST_VERSION | FIRST_MODULE | NONE

  /** The metadata rule class a definition registers. Only the classes the
      model describes have a behaviour elsewhere; the others are names. */
  datatype RuleClass =
    | CapabilityDefinitionRule
    | FixedVersionCapabilityDefinitionRule
    | AopallianceRule
    | GuavaListenableFutureRule
    | JakartaActivationApiRule
    | JakartaActivationImplementationRule
    | JakartaAnnotationApiRule
    | JakartaMailApiRule
    | JakartaServletApiRule
    | JakartaWebsocketApiRule
    | JakartaWebsocketClientApiRule
    | JakartaWsRsApiRule
    | JavaxActivationApiRule
    | JavaxAnnotationApiRule
    | JavaxEjbApiRule
    | JavaxElApiRule
    | JavaxInjectApiRule
    | JavaxJsonApiRule
    | JavaxJwsApisRule
    | JavaxMailApiRule
    | JavaxPersistenceApiRule
    | JavaxServletApiRule
    | JavaxServletJspRule
    | JavaxServletJstlRule
    | JavaxSoapApiRule
    | JavaxTransactionApiRule
    | JavaxValidationApiRule
    | JavaxWebsocketApiRule
    | JavaxWsRsApiRule
    | JavaxXmlBindApiRule
    | JavaxXmlWsApiRule

  datatype CapabilityDefinition =
    | AOPALLIANCE
    | APACHE_CSV
    | ASM
    | BOUNCYCASTLE_BCMAIL
    | BOUNCYCASTLE_BCPG
    | BOUNCYCASTLE_BCPKIX
    | BOUNCYCASTLE_BCPROV
    | BOUNCYCASTLE_BCTLS
    | BOUNCYCASTLE_BCTSP
    | BOUNCYCASTLE_BCUTIL
    | C3P0
    | MCHANGE_COMMONS_JAVA
    | CGLIB
    | COMMONS_BEANUTILS
    | COMMONS_IO
    | DOM4J
    | FINDBUGS_ANNOTATIONS
    | GOOGLE_COLLECTIONS
    | GUAVA
    | JZY3D_EMUL_GL
    | JZY3D_JGL
    | LZ4
    | LISTENABLEFUTURE
    | HAMCREST_LIBRARY
    | HAMCREST_CORE
    | HIKARI_CP
    | INTELLIJ_ANNOTATIONS
    | JAVA_ASSIST
    | JCIP_ANNOTATIONS
    | JNA_PLATFORM
    | JTS_CORE
    | JUNIT
    | MIGLAYOUT
    | ORG_JSON
    | MYSQL_CONNECTOR_JAVA
    | POSTGRESQL
    | STAX_API
    | VELOCITY
    | WOODSTOX_ASL
    | JAKARTA_ACTIVATION_API
    | JAKARTA_ACTIVATION_IMPL
    | JAKARTA_ANNOTATION_API
    | JAKARTA_JSON_API
    | JAKARTA_MAIL_API
    | JAKARTA_SERVLET_API
    | JAKARTA_WEBSOCKET_API
    | JAKARTA_WEBSOCKET_CLIENT_API
    | JAKARTA_WS_RS_API
    | JAVAX_ACTIVATION_API
    | JAVAX_ANNOTATION_API
    | JAVAX_EJB_API
    | JAVAX_EL_API
    | JAVAX_INJECT_API
    | JAVAX_JSON_API
    | JAVAX_JWS_API
    | JAVAX_MAIL_API
    | JAVAX_PERSISTENCE_API
    | JAVAX_SERVLET_API
    | JAVAX_SERVLET_JSP
    | JAVAX_SERVLET_JSTL
    | JAVAX_SOAP_API
    | JAVAX_TRANSACTION_API
    | JAVAX_VALIDATION_API
    | JAVAX_WEBSOCKET_API_RULE
    | JAVAX_WS_RS_API
    | JAVAX_XML_BIND_API
    | JAVAX_XML_WS_API
    | LOG4J2_IMPL
    | COMMONS_LOGGING_IMPL
    | SLF4J_VS_JCL
    | SLF4J_VS_LOG4J2_FOR_JCL
    | LOG4J2_VS_SLF4J
    | SLF4J_IMPL
    | SLF4J_VS_LOG4J
    | SLF4J_VS_LOG4J2_FOR_LOG4J
    | SLF4J_VS_JUL
    | SLF4J_VS_LOG4J2_FOR_JUL

  /** The group the shorter constructors supply. */
  const DefaultGroup: string := "org.gradlex"

  /** `CapabilityDefinition.values()`: every constant in declaration order. */
  const AllDefinitions: seq<CapabilityDefinition> :=
    Definitions_0 + Definitions_1 + Definitions_2 + Definitions_3

  const Definitions_0: seq<CapabilityDefinition> := [
    AOPALLIANCE, APACHE_CSV, ASM, BOUNCYCASTLE_BCMAIL,
    BOUNCYCASTLE_BCPG, BOUNCYCASTLE_BCPKIX, BOUNCYCASTLE_BCPROV, BOUNCYCASTLE_BCTLS,
    BOUNCYCASTLE_BCTSP, BOUNCYCASTLE_BCUTIL, C3P0, MCHANGE_COMMONS_JAVA,
    CGLIB, COMMONS_BEANUTILS, COMMONS_IO, DOM4J,
    FINDBUGS_ANNOTATIONS, GOOGLE_COLLECTIONS, GUAVA, JZY3D_EMUL_GL
  ]
  const Definitions_1: seq<CapabilityDefinition> := [
    JZY3D_JGL, LZ4, LISTENABLEFUTURE, HAMCREST_LIBRARY,
    HAMCREST_CORE, HIKARI_CP, INTELLIJ_ANNOTATIONS, JAVA_ASSIST,
    JCIP_ANNOTATIONS, JNA_PLATFORM, JTS_CORE, JUNIT,
    MIGLAYOUT, ORG_JSON, MYSQL_CONNECTOR_JAVA, POSTGRESQL,
    STAX_API, VELOCITY, WOODSTOX_ASL, JAKARTA_ACTIVATION_API
  ]
  const Definitions_2: seq<CapabilityDefinition> := [
    JAKARTA_ACTIVATION_IMPL, JAKARTA_ANNOTATION_API, JAKARTA_JSON_API, JAKARTA_MAIL_API,
    JAKARTA_SERVLET_API, JAKARTA_WEBSOCKET_API, JAKARTA_WEBSOCKET_CLIENT_API, JAKARTA_WS_RS_API,
    JAVAX_ACTIVATION_API, JAVAX_ANNOTATION_API, JAVAX_EJB_API, JAVAX_EL_API,
    JAVAX_INJECT_API, JAVAX_JSON_API, JAVAX_JWS_API, JAVAX_MAIL_API,
    JAVAX_PERSISTENCE_API, JAVAX_SERVLET_API, JAVAX_SERVLET_JSP, JAVAX_SERVLET_JSTL
  ]
  const Definitions_3: seq<CapabilityDefinition> := [
    JAVAX_SOAP_API, JAVAX_TRANSACTION_API, JAVAX_VALIDATION_API, JAVAX_WEBSOCKET_API_RULE,
    JAVAX_WS_RS_API, JAVAX_XML_BIND_API, JAVAX_XML_WS_API, LOG4J2_IMPL,
    COMMONS_LOGGING_IMPL, SLF4J_VS_JCL, SLF4J_VS_LOG4J2_FOR_JCL, LOG4J2_VS_SLF4J,
    SLF4J_IMPL, SLF4J_VS_LOG4J, SLF4J_VS_LOG4J2_FOR_LOG4J, SLF4J_VS_JUL,
    SLF4J_VS_LOG4J2_FOR_JUL
  ]

  /** The strategy each constant declares. */
  function DefaultStrategy(d: CapabilityDefinition): DefaultResolutionStrategy {
    match d
    case AOPALLIANCE => HIGHEST_VERSION
    case APACHE_CSV => HIGHEST_VERSION
    case ASM => HIGHEST_VERSION
    case BOUNCYCASTLE_BCMAIL => HIGHEST_VERSION
    case BOUNCYCASTLE_BCPG => HIGHEST_VERSION
    case BOUNCYCASTLE_BCPKIX => HIGHEST_VERSION
    case BOUNCYCASTLE_BCPROV => HIGHEST_VERSION
    case BOUNCYCASTLE_BCTLS => HIGHEST_VERSION
    case BOUNCYCASTLE_BCTSP => HIGHEST_VERSION
    case BOUNCYCASTLE_BCUTIL => HIGHEST_VERSION
    case C3P0 => HIGHEST_VERSION
    case MCHANGE_COMMONS_JAVA => HIGHEST_VERSION
    case CGLIB => HIGHEST_VERSION
    case COMMONS_BEANUTILS => HIGHEST_VERSION
    case COMMONS_IO => HIGHEST_VERSION
    case DOM4J => HIGHEST_VERSION
    case FINDBUGS_ANNOTATIONS => HIGHEST_VERSION
    case GOOGLE_COLLECTIONS => HIGHEST_VERSION
    case GUAVA => HIGHEST_VERSION
    case JZY3D_EMUL_GL => HIGHEST_VERSION
    case JZY3D_JGL => HIGHEST_VERSION
    case LZ4 => HIGHEST_VERSION
    case LISTENABLEFUTURE => FIRST_MODULE
    case HAMCREST_LIBRARY => FIRST_MODULE
    case HAMCREST_CORE => FIRST_MODULE
    case HIKARI_CP => HIGHEST_VERSION
    case INTELLIJ_ANNOTATIONS => HIGHEST_VERSION
    case JAVA_ASSIST => HIGHEST_VERSION
    case JCIP_ANNOTATIONS => HIGHEST_VERSION
    case JNA_PLATFORM => HIGHEST_VERSION
    case JTS_CORE => HIGHEST_VERSION
    case JUNIT => HIGHEST_VERSION
    case MIGLAYOUT => HIGHEST_VERSION
    case ORG_JSON => HIGHEST_VERSION
    case MYSQL_CONNECTOR_JAVA => HIGHEST_VERSION
    case POSTGRESQL => HIGHEST_VERSION
    case STAX_API => HIGHEST_VERSION
    case VELOCITY => HIGHEST_VERSION
    case WOODSTOX_ASL => HIGHEST_VERSION
    case JAKARTA_ACTIVATION_API => HIGHEST_VERSION
    case JAKARTA_ACTIVATION_IMPL => HIGHEST_VERSION
    case JAKARTA_ANNOTATION_API => HIGHEST_VERSION
    case JAKARTA_JSON_API => HIGHEST_VERSION
    case JAKARTA_MAIL_API => HIGHEST_VERSION
    case JAKARTA_SERVLET_API => HIGHEST_VERSION
    case JAKARTA_WEBSOCKET_API => HIGHEST_VERSION
    case JAKARTA_WEBSOCKET_CLIENT_API => HIGHEST_VERSION
    case JAKARTA_WS_RS_API => HIGHEST_VERSION
    case JAVAX_ACTIVATION_API => HIGHEST_VERSION
    case JAVAX_ANNOTATION_API => HIGHEST_VERSION
    case JAVAX_EJB_API => HIGHEST_VERSION
    case JAVAX_EL_API => HIGHEST_VERSION
    case JAVAX_INJECT_API => HIGHEST_VERSION
    case JAVAX_JSON_API => HIGHEST_VERSION
    case JAVAX_JWS_API => HIGHEST_VERSION
    case JAVAX_MAIL_API => HIGHEST_VERSION
    case JAVAX_PERSISTENCE_API => HIGHEST_VERSION
    case JAVAX_SERVLET_API => HIGHEST_VERSION
    case JAVAX_SERVLET_JSP => HIGHEST_VERSION
    case JAVAX_SERVLET_JSTL => HIGHEST_VERSION
    case JAVAX_SOAP_API => HIGHEST_VERSION
    case JAVAX_TRANSACTION_API => HIGHEST_VERSION
    case JAVAX_VALIDATION_API => HIGHEST_VERSION
    case JAVAX_WEBSOCKET_API_RULE => HIGHEST_VERSION
    case JAVAX_WS_RS_API => HIGHEST_VERSION
    case JAVAX_XML_BIND_API => HIGHEST_VERSION
    case JAVAX_XML_WS_API => HIGHEST_VERSION
    case LOG4J2_IMPL => NONE
    case COMMONS_LOGGING_IMPL => NONE
    case SLF4J_VS_JCL => NONE
    case SLF4J_VS_LOG4J2_FOR_JCL => NONE
    case LOG4J2_VS_SLF4J => NONE
    case SLF4J_IMPL => NONE
    case SLF4J_VS_LOG4J => NONE
    case SLF4J_VS_LOG4J2_FOR_LOG4J => NONE
    case SLF4J_VS_JUL => NONE
    case SLF4J_VS_LOG4J2_FOR_JUL => NONE
  }

  /** The group argument, given only to the longest constructor. */
  function GroupArgument(d: CapabilityDefinition): Option<string> {
    match d
    case AOPALLIANCE => None
    case APACHE_CSV => None
    case ASM => None
    case BOUNCYCASTLE_BCMAIL => None
    case BOUNCYCASTLE_BCPG => None
    case BOUNCYCASTLE_BCPKIX => None
    case BOUNCYCASTLE_BCPROV => None
    case BOUNCYCASTLE_BCTLS => None
    case BOUNCYCASTLE_BCTSP => None
    case BOUNCYCASTLE_BCUTIL => None
    case C3P0 => None
    case MCHANGE_COMMONS_JAVA => None
    case CGLIB => None
    case COMMONS_BEANUTILS => None
    case COMMONS_IO => None
    case DOM4J => None
    case FINDBUGS_ANNOTATIONS => None
    case GOOGLE_COLLECTIONS => Some("com.google.collections")
    case GUAVA => None
    case JZY3D_EMUL_GL => None
    case JZY3D_JGL => None
    case LZ4 => None
    case LISTENABLEFUTURE => Some("com.google.guava")
    case HAMCREST_LIBRARY => None
    case HAMCREST_CORE => None
    case HIKARI_CP => None
    case INTELLIJ_ANNOTATIONS => None
    case JAVA_ASSIST => None
    case JCIP_ANNOTATIONS => None
    case JNA_PLATFORM => None
    case JTS_CORE => None
    case JUNIT => None
    case MIGLAYOUT => None
    case ORG_JSON => None
    case MYSQL_CONNECTOR_JAVA => None
    case POSTGRESQL => None
    case STAX_API => None
    case VELOCITY => None
    case WOODSTOX_ASL => None
    case JAKARTA_ACTIVATION_API => None
    case JAKARTA_ACTIVATION_IMPL => None
    case JAKARTA_ANNOTATION_API => None
    case JAKARTA_JSON_API => None
    case JAKARTA_MAIL_API => None
    case JAKARTA_SERVLET_API => None
    case JAKARTA_WEBSOCKET_API => None
    case JAKARTA_WEBSOCKET_CLIENT_API => None
    case JAKARTA_WS_RS_API => None
    case JAVAX_ACTIVATION_API => None
    case JAVAX_ANNOTATION_API => None
    case JAVAX_EJB_API => None
    case JAVAX_EL_API => None
    case JAVAX_INJECT_API => None
    case JAVAX_JSON_API => None
    case JAVAX_JWS_API => None
    case JAVAX_MAIL_API => None
    case JAVAX_PERSISTENCE_API => None
    case JAVAX_SERVLET_API => None
    case JAVAX_SERVLET_JSP => None
    case JAVAX_SERVLET_JSTL => None
    case JAVAX_SOAP_API => None
    case JAVAX_TRANSACTION_API => None
    case JAVAX_VALIDATION_API => None
    case JAVAX_WEBSOCKET_API_RULE => None
    case JAVAX_WS_RS_API => None
    case JAVAX_XML_BIND_API => None
    case JAVAX_XML_WS_API => None
    case LOG4J2_IMPL => None
    case COMMONS_LOGGING_IMPL => None
    case SLF4J_VS_JCL => None
    case SLF4J_VS_LOG4J2_FOR_JCL => None
    case LOG4J2_VS_SLF4J => None
    case SLF4J_IMPL => None
    case SLF4J_VS_LOG4J => None
    case SLF4J_VS_LOG4J2_FOR_LOG4J => None
    case SLF4J_VS_JUL => None
    case SLF4J_VS_LOG4J2_FOR_JUL => None
  }

  /** The rule-class argument, omitted by the shortest constructor. */
  function RuleClassArgument(d: CapabilityDefinition): Option<RuleClass> {
    match d
    case AOPALLIANCE => Some(AopallianceRule)
    case APACHE_CSV => None
    case ASM => None
    case BOUNCYCASTLE_BCMAIL => None
    case BOUNCYCASTLE_BCPG => None
    case BOUNCYCASTLE_BCPKIX => None
    case BOUNCYCASTLE_BCPROV => None
    case BOUNCYCASTLE_BCTLS => None
    case BOUNCYCASTLE_BCTSP => None
    case BOUNCYCASTLE_BCUTIL => None
    case C3P0 => None
    case MCHANGE_COMMONS_JAVA => None
    case CGLIB => None
    case COMMONS_BEANUTILS => None
    case COMMONS_IO => None
    case DOM4J => None
    case FINDBUGS_ANNOTATIONS => None
    case GOOGLE_COLLECTIONS => Some(CapabilityDefinitionRule)
    case GUAVA => None
    case JZY3D_EMUL_GL => None
    case JZY3D_JGL => None
    case LZ4 => None
    case LISTENABLEFUTURE => Some(GuavaListenableFutureRule)
    case HAMCREST_LIBRARY => None
    case HAMCREST_CORE => None
    case HIKARI_CP => None
    case INTELLIJ_ANNOTATIONS => None
    case JAVA_ASSIST => None
    case JCIP_ANNOTATIONS => None
    case JNA_PLATFORM => None
    case JTS_CORE => None
    case JUNIT => None
    case MIGLAYOUT => None
    case ORG_JSON => None
    case MYSQL_CONNECTOR_JAVA => None
    case POSTGRESQL => None
    case STAX_API => None
    case VELOCITY => None
    case WOODSTOX_ASL => None
    case JAKARTA_ACTIVATION_API => Some(JakartaActivationApiRule)
    case JAKARTA_ACTIVATION_IMPL => Some(JakartaActivationImplementationRule)
    case JAKARTA_ANNOTATION_API => Some(JakartaAnnotationApiRule)
    case JAKARTA_JSON_API => None
    case JAKARTA_MAIL_API => Some(JakartaMailApiRule)
    case JAKARTA_SERVLET_API => Some(JakartaServletApiRule)
    case JAKARTA_WEBSOCKET_API => Some(JakartaWebsocketApiRule)
    case JAKARTA_WEBSOCKET_CLIENT_API => Some(JakartaWebsocketClientApiRule)
    case JAKARTA_WS_RS_API => Some(JakartaWsRsApiRule)
    case JAVAX_ACTIVATION_API => Some(JavaxActivationApiRule)
    case JAVAX_ANNOTATION_API => Some(JavaxAnnotationApiRule)
    case JAVAX_EJB_API => Some(JavaxEjbApiRule)
    case JAVAX_EL_API => Some(JavaxElApiRule)
    case JAVAX_INJECT_API => Some(JavaxInjectApiRule)
    case JAVAX_JSON_API => Some(JavaxJsonApiRule)
    case JAVAX_JWS_API => Some(JavaxJwsApisRule)
    case JAVAX_MAIL_API => Some(JavaxMailApiRule)
    case JAVAX_PERSISTENCE_API => Some(JavaxPersistenceApiRule)
    case JAVAX_SERVLET_API => Some(JavaxServletApiRule)
    case JAVAX_SERVLET_JSP => Some(JavaxServletJspRule)
    case JAVAX_SERVLET_JSTL => Some(JavaxServletJstlRule)
    case JAVAX_SOAP_API => Some(JavaxSoapApiRule)
    case JAVAX_TRANSACTION_API => Some(JavaxTransactionApiRule)
    case JAVAX_VALIDATION_API => Some(JavaxValidationApiRule)
    case JAVAX_WEBSOCKET_API_RULE => Some(JavaxWebsocketApiRule)
    case JAVAX_WS_RS_API => Some(JavaxWsRsApiRule)
    case JAVAX_XML_BIND_API => Some(JavaxXmlBindApiRule)
    case JAVAX_XML_WS_API => Some(JavaxXmlWsApiRule)
    case LOG4J2_IMPL => None
    case COMMONS_LOGGING_IMPL => Some(FixedVersionCapabilityDefinitionRule)
    case SLF4J_VS_JCL => None
    case SLF4J_VS_LOG4J2_FOR_JCL => Some(FixedVersionCapabilityDefinitionRule)
    case LOG4J2_VS_SLF4J => None
    case SLF4J_IMPL => Some(FixedVersionCapabilityDefinitionRule)
    case SLF4J_VS_LOG4J => None
    case SLF4J_VS_LOG4J2_FOR_LOG4J => Some(FixedVersionCapabilityDefinitionRule)
    case SLF4J_VS_JUL => None
    case SLF4J_VS_LOG4J2_FOR_JUL => Some(FixedVersionCapabilityDefinitionRule)
  }

  /** The modules providing the capability, in declared order. A logging
      definition is declared with logging module ids, every other one with
      literal coordinates. */
  function Modules(d: CapabilityDefinition): seq<Coord> {
    if IsLoggingDefinition(d) then LoggingCoordinates(LoggingModules(d)) else LiteralModules(d)
  }

  /** The literal coordinates of the definitions that are not about logging. */
  function LiteralModules(d: CapabilityDefinition): seq<Coord> {
    match d
    case AOPALLIANCE => Modules_AOPALLIANCE
    case APACHE_CSV => Modules_APACHE_CSV
    case ASM => Modules_ASM
    case BOUNCYCASTLE_BCMAIL => Modules_BOUNCYCASTLE_BCMAIL
    case BOUNCYCASTLE_BCPG => Modules_BOUNCYCASTLE_BCPG
    case BOUNCYCASTLE_BCPKIX => Modules_BOUNCYCASTLE_BCPKIX
    case BOUNCYCASTLE_BCPROV => Modules_BOUNCYCASTLE_BCPROV
    case BOUNCYCASTLE_BCTLS => Modules_BOUNCYCASTLE_BCTLS
    case BOUNCYCASTLE_BCTSP => Modules_BOUNCYCASTLE_BCTSP
    case BOUNCYCASTLE_BCUTIL => Modules_BOUNCYCASTLE_BCUTIL
    case C3P0 => Modules_C3P0
    case MCHANGE_COMMONS_JAVA => Modules_MCHANGE_COMMONS_JAVA
    case CGLIB => Modules_CGLIB
    case COMMONS_BEANUTILS => Modules_COMMONS_BEANUTILS
    case COMMONS_IO => Modules_COMMONS_IO
    case DOM4J => Modules_DOM4J
    case FINDBUGS_ANNOTATIONS => Modules_FINDBUGS_ANNOTATIONS
    case GOOGLE_COLLECTIONS => Modules_GOOGLE_COLLECTIONS
    case GUAVA => Modules_GUAVA
    case JZY3D_EMUL_GL => Modules_JZY3D_EMUL_GL
    case JZY3D_JGL => Modules_JZY3D_JGL
    case LZ4 => Modules_LZ4
    case LISTENABLEFUTURE => Modules_LISTENABLEFUTURE
    case HAMCREST_LIBRARY => Modules_HAMCREST_LIBRARY
    case HAMCREST_CORE => Modules_HAMCREST_CORE
    case HIKARI_CP => Modules_HIKARI_CP
    case INTELLIJ_ANNOTATIONS => Modules_INTELLIJ_ANNOTATIONS
    case JAVA_ASSIST => Modules_JAVA_ASSIST
    case JCIP_ANNOTATIONS => Modules_JCIP_ANNOTATIONS
    case JNA_PLATFORM => Modules_JNA_PLATFORM
    case JTS_CORE => Modules_JTS_CORE
    case JUNIT => Modules_JUNIT
    case MIGLAYOUT => Modules_MIGLAYOUT
    case ORG_JSON => Modules_ORG_JSON
    case MYSQL_CONNECTOR_JAVA => Modules_MYSQL_CONNECTOR_JAVA
    case POSTGRESQL => Modules_POSTGRESQL
    case STAX_API => Modules_STAX_API
    case VELOCITY => Modules_VELOCITY
    case WOODSTOX_ASL => Modules_WOODSTOX_ASL
    case JAKARTA_ACTIVATION_API => Modules_JAKARTA_ACTIVATION_API
    case JAKARTA_ACTIVATION_IMPL => Modules_JAKARTA_ACTIVATION_IMPL
    case JAKARTA_ANNOTATION_API => Modules_JAKARTA_ANNOTATION_API
    case JAKARTA_JSON_API => Modules_JAKARTA_JSON_API
    case JAKARTA_MAIL_API => Modules_JAKARTA_MAIL_API
    case JAKARTA_SERVLET_API => Modules_JAKARTA_SERVLET_API
    case JAKARTA_WEBSOCKET_API => Modules_JAKARTA_WEBSOCKET_API
    case JAKARTA_WEBSOCKET_CLIENT_API => Modules_JAKARTA_WEBSOCKET_CLIENT_API
    case JAKARTA_WS_RS_API => Modules_JAKARTA_WS_RS_API
    case JAVAX_ACTIVATION_API => Modules_JAVAX_ACTIVATION_API
    case JAVAX_ANNOTATION_API => Modules_JAVAX_ANNOTATION_API
    case JAVAX_EJB_API => Modules_JAVAX_EJB_API
    case JAVAX_EL_API => Modules_JAVAX_EL_API
    case JAVAX_INJECT_API => Modules_JAVAX_INJECT_API
    case JAVAX_JSON_API => Modules_JAVAX_JSON_API
    case JAVAX_JWS_API => Modules_JAVAX_JWS_API
    case JAVAX_MAIL_API => Modules_JAVAX_MAIL_API
    case JAVAX_PERSISTENCE_API => Modules_JAVAX_PERSISTENCE_API
    case JAVAX_SERVLET_API => Modules_JAVAX_SERVLET_API
    case JAVAX_SERVLET_JSP => Modules_JAVAX_SERVLET_JSP
    case JAVAX_SERVLET_JSTL => Modules_JAVAX_SERVLET_JSTL
    case JAVAX_SOAP_API => Modules_JAVAX_SOAP_API
    case JAVAX_TRANSACTION_API => Modules_JAVAX_TRANSACTION_API
    case JAVAX_VALIDATION_API => Modules_JAVAX_VALIDATION_API
    case JAVAX_WEBSOCKET_API_RULE => Modules_JAVAX_WEBSOCKET_API_RULE
    case JAVAX_WS_RS_API => Modules_JAVAX_WS_RS_API
    case JAVAX_XML_BIND_API => Modules_JAVAX_XML_BIND_API
    case JAVAX_XML_WS_API => Modules_JAVAX_XML_WS_API
    case _ => []
  }

  const Modules_AOPALLIANCE: seq<Coord> := [Coord("aopalliance", "aopalliance"), Coord("org.springframework", "spring-aop")]
  const Modules_APACHE_CSV: seq<Coord> := [Coord("org.apache.solr", "solr-commons-csv"), Coord("org.apache.commons", "commons-csv")]
  const Modules_ASM: seq<Coord> := [Coord("asm", "asm"), Coord("org.ow2.asm", "asm")]
  const Modules_BOUNCYCASTLE_BCMAIL: seq<Coord> := [Coord("org.bouncycastle", "bcmail"), Coord("org.bouncycastle", "bcmail-fips"), Coord("org.bouncycastle", "bcmail-jdk14"), Coord("org.bouncycastle", "bcmail-jdk15"), Coord("org.bouncycastle", "bcmail-jdk15+"), Coord("org.bouncycastle", "bcmail-jdk15on"), Coord("org.bouncycastle", "bcmail-jdk15to18"), Coord("org.bouncycastle", "bcmail-jdk16"), Coord("org.bouncycastle", "bcmail-jdk18on"), Coord("org.bouncycastle", "bcjmail-jdk15on"), Coord("org.bouncycastle", "bcjmail-jdk15to18"), Coord("org.bouncycastle", "bcjmail-jdk18on")]
  const Modules_BOUNCYCASTLE_BCPG: seq<Coord> := [Coord("org.bouncycastle", "bcpg"), Coord("org.bouncycastle", "bcpg-fips"), Coord("org.bouncycastle", "bcpg-jdk12"), Coord("org.bouncycastle", "bcpg-jdk14"), Coord("org.bouncycastle", "bcpg-jdk15"), Coord("org.bouncycastle", "bcpg-jdk15+"), Coord("org.bouncycastle", "bcpg-jdk15on"), Coord("org.bouncycastle", "bcpg-jdk15to18"), Coord("org.bouncycastle", "bcpg-jdk16"), Coord("org.bouncycastle", "bcpg-jdk18on")]
  const Modules_BOUNCYCASTLE_BCPKIX: seq<Coord> := [Coord("org.bouncycastle", "bcpkix"), Coord("org.bouncycastle", "bcpkix-fips"), Coord("org.bouncycastle", "bcpkix-jdk14"), Coord("org.bouncycastle", "bcpkix-jdk15on"), Coord("org.bouncycastle", "bcpkix-jdk15to18"), Coord("org.bouncycastle", "bcpkix-jdk18on")]
  const Modules_BOUNCYCASTLE_BCPROV: seq<Coord> := [Coord("org.bouncycastle", "bcprov"), Coord("org.bouncycastle", "bcprov-debug-jdk14"), Coord("org.bouncycastle", "bcprov-debug-jdk15on"), Coord("org.bouncycastle", "bcprov-debug-jdk15to18"), Coord("org.bouncycastle", "bcprov-debug-jdk18on"), Coord("org.bouncycastle", "bcprov-ext-debug-jdk14"), Coord("org.bouncycastle", "bcprov-ext-debug-jdk15on"), Coord("org.bouncycastle", "bcprov-ext-debug-jdk15to18"), Coord("org.bouncycastle", "bcprov-ext-debug-jdk18on"), Coord("org.bouncycastle", "bcprov-ext-jdk14"), Coord("org.bouncycastle", "bcprov-ext-jdk15"), Coord("org.bouncycastle", "bcprov-ext-jdk15on"), Coord("org.bouncycastle", "bcprov-ext-jdk15to18"), Coord("org.bouncycastle", "bcprov-ext-jdk16"), Coord("org.bouncycastle", "bcprov-ext-jdk18on"), Coord("org.bouncycastle", "bcprov-jdk12"), Coord("org.bouncycastle", "bcprov-jdk14"), Coord("org.bouncycastle", "bcprov-jdk15"), Coord("org.bouncycastle", "bcprov-jdk15+"), Coord("org.bouncycastle", "bcprov-jdk15on"), Coord("org.bouncycastle", "bcprov-jdk15to18"), Coord("org.bouncycastle", "bcprov-jdk16"), Coord("org.bouncycastle", "bcprov-jdk18on"), Coord("org.bouncycastle", "bc-fips"), Coord("org.bouncycastle", "bc-fips-debug")]
  const Modules_BOUNCYCASTLE_BCTLS: seq<Coord> := [Coord("org.bouncycastle", "bctls"), Coord("org.bouncycastle", "bctls-jdk14"), Coord("org.bouncycastle", "bctls-jdk15on"), Coord("org.bouncycastle", "bctls-jdk15to18"), Coord("org.bouncycastle", "bctls-jdk18on"), Coord("org.bouncycastle", "bctls-fips")]
  const Modules_BOUNCYCASTLE_BCTSP: seq<Coord> := [Coord("org.bouncycastle", "bctsp"), Coord("org.bouncycastle", "bctsp-jdk14"), Coord("org.bouncycastle", "bctsp-jdk15"), Coord("org.bouncycastle", "bctsp-jdk15+"), Coord("org.bouncycastle", "bctsp-jdk15on"), Coord("org.bouncycastle", "bctsp-jdk16")]
  const Modules_BOUNCYCASTLE_BCUTIL: seq<Coord> := [Coord("org.bouncycastle", "bcutil"), Coord("org.bouncycastle", "bcutil-jdk14"), Coord("org.bouncycastle", "bcutil-jdk15on"), Coord("org.bouncycastle", "bcutil-jdk15to18"), Coord("org.bouncycastle", "bcutil-jdk18on")]
  const Modules_C3P0: seq<Coord> := [Coord("c3p0", "c3p0"), Coord("com.mchange", "c3p0")]
  const Modules_MCHANGE_COMMONS_JAVA: seq<Coord> := [Coord("c3p0", "c3p0"), Coord("com.mchange", "mchange-commons-java")]
  const Modules_CGLIB: seq<Coord> := [Coord("cglib", "cglib"), Coord("cglib", "cglib-nodep")]
  const Modules_COMMONS_BEANUTILS: seq<Coord> := [Coord("commons-beanutils", "commons-beanutils-core"), Coord("commons-beanutils", "commons-beanutils")]
  const Modules_COMMONS_IO: seq<Coord> := [Coord("commons-io", "commons-io"), Coord("org.apache.commons", "commons-io")]
  const Modules_DOM4J: seq<Coord> := [Coord("dom4j", "dom4j"), Coord("org.dom4j", "dom4j")]
  const Modules_FINDBUGS_ANNOTATIONS: seq<Coord> := [Coord("com.google.code.findbugs", "annotations"), Coord("com.google.code.findbugs", "findbugs-annotations"), Coord("com.github.spotbugs", "spotbugs-annotations")]
  const Modules_GOOGLE_COLLECTIONS: seq<Coord> := [Coord("com.google.collections", "google-collections"), Coord("com.google.guava", "guava")]
  const Modules_GUAVA: seq<Coord> := [Coord("com.google.guava", "guava"), Coord("com.google.guava", "guava-jdk5")]
  const Modules_JZY3D_EMUL_GL: seq<Coord> := [Coord("org.jzy3d", "jzy3d-emul-gl"), Coord("org.jzy3d", "jzy3d-emul-gl-awt")]
  const Modules_JZY3D_JGL: seq<Coord> := [Coord("org.jzy3d", "jGL"), Coord("org.jzy3d", "jzy3d-jGL-awt")]
  const Modules_LZ4: seq<Coord> := [Coord("net.jpountz.lz4", "lz4"), Coord("org.lz4", "lz4-java")]
  const Modules_LISTENABLEFUTURE: seq<Coord> := [Coord("com.google.guava", "guava"), Coord("com.google.guava", "listenablefuture")]
  const Modules_HAMCREST_LIBRARY: seq<Coord> := [Coord("org.hamcrest", "hamcrest"), Coord("org.hamcrest", "hamcrest-library")]
  const Modules_HAMCREST_CORE: seq<Coord> := [Coord("org.hamcrest", "hamcrest"), Coord("org.hamcrest", "hamcrest-core")]
  const Modules_HIKARI_CP: seq<Coord> := [Coord("com.zaxxer", "HikariCP"), Coord("com.zaxxer", "HikariCP-java6"), Coord("com.zaxxer", "HikariCP-java7")]
  const Modules_INTELLIJ_ANNOTATIONS: seq<Coord> := [Coord("org.jetbrains", "annotations"), Coord("com.intellij", "annotations")]
  const Modules_JAVA_ASSIST: seq<Coord> := [Coord("javassist", "javassist"), Coord("org.javassist", "javassist"), Coord("jboss", "javassist")]
  const Modules_JCIP_ANNOTATIONS: seq<Coord> := [Coord("net.jcip", "jcip-annotations"), Coord("com.github.stephenc.jcip", "jcip-annotations")]
  const Modules_JNA_PLATFORM: seq<Coord> := [Coord("net.java.dev.jna", "platform"), Coord("net.java.dev.jna", "jna-platform")]
  const Modules_JTS_CORE: seq<Coord> := [Coord("com.vividsolutions", "jts"), Coord("com.vividsolutions", "jts-core")]
  const Modules_JUNIT: seq<Coord> := [Coord("junit", "junit"), Coord("junit", "junit-dep")]
  const Modules_MIGLAYOUT: seq<Coord> := [Coord("com.miglayout", "miglayout-swing"), Coord("com.miglayout", "miglayout")]
  const Modules_ORG_JSON: seq<Coord> := [Coord("com.vaadin.external.google", "android-json"), Coord("org.json", "json")]
  const Modules_MYSQL_CONNECTOR_JAVA: seq<Coord> := [Coord("mysql", "mysql-connector-java"), Coord("com.mysql", "mysql-connector-j")]
  const Modules_POSTGRESQL: seq<Coord> := [Coord("postgresql", "postgresql"), Coord("org.postgresql", "postgresql")]
  const Modules_STAX_API: seq<Coord> := [Coord("stax", "stax-api"), Coord("javax.xml.stream", "stax-api")]
  const Modules_VELOCITY: seq<Coord> := [Coord("velocity", "velocity"), Coord("org.apache.velocity", "velocity"), Coord("org.apache.velocity", "velocity-engine-core")]
  const Modules_WOODSTOX_ASL: seq<Coord> := [Coord("org.codehaus.woodstox", "woodstox-core-asl"), Coord("org.codehaus.woodstox", "woodstox-core-lgpl"), Coord("org.codehaus.woodstox", "wstx-asl"), Coord("org.codehaus.woodstox", "wstx-lgpl"), Coord("woodstox", "wstx-asl")]
  const Modules_JAKARTA_ACTIVATION_API: seq<Coord> := [Coord("jakarta.activation", "jakarta.activation-api"), Coord("com.sun.activation", "jakarta.activation")]
  const Modules_JAKARTA_ACTIVATION_IMPL: seq<Coord> := [Coord("com.sun.activation", "jakarta.activation"), Coord("org.eclipse.angus", "angus-activation")]
  const Modules_JAKARTA_ANNOTATION_API: seq<Coord> := [Coord("jakarta.annotation", "jakarta.annotation-api"), Coord("org.apache.tomcat", "tomcat-annotations-api")]
  const Modules_JAKARTA_JSON_API: seq<Coord> := [Coord("jakarta.json", "jakarta.json-api"), Coord("org.glassfish", "jakarta.json")]
  const Modules_JAKARTA_MAIL_API: seq<Coord> := [Coord("jakarta.mail", "jakarta.mail-api"), Coord("com.sun.mail", "mailapi"), Coord("com.sun.mail", "jakarta.mail"), Coord("org.eclipse.angus", "jakarta.mail")]
  const Modules_JAKARTA_SERVLET_API: seq<Coord> := [Coord("jakarta.servlet", "jakarta.servlet-api"), Coord("org.apache.tomcat", "tomcat-servlet-api"), Coord("org.apache.tomcat.embed", "tomcat-embed-core"), Coord("org.eclipse.jetty.toolchain", "jetty-jakarta-servlet-api")]
  const Modules_JAKARTA_WEBSOCKET_API: seq<Coord> := [Coord("jakarta.websocket", "jakarta.websocket-api"), Coord("org.apache.tomcat", "tomcat-websocket-api"), Coord("org.apache.tomcat", "tomcat-websocket"), Coord("org.apache.tomcat.embed", "tomcat-embed-websocket"), Coord("org.eclipse.jetty.toolchain", "jetty-jakarta-websocket-api")]
  const Modules_JAKARTA_WEBSOCKET_CLIENT_API: seq<Coord> := [Coord("jakarta.websocket", "jakarta.websocket-client-api"), Coord("org.apache.tomcat", "tomcat-websocket-client-api"), Coord("org.apache.tomcat", "tomcat-websocket"), Coord("org.apache.tomcat.embed", "tomcat-embed-websocket"), Coord("org.eclipse.jetty.toolchain", "jetty-jakarta-websocket-api")]
  const Modules_JAKARTA_WS_RS_API: seq<Coord> := [Coord("jakarta.ws.rs", "jakarta.ws.rs-api"), Coord("org.jboss.spec.javax.ws.rs", "jboss-jaxrs-api_3.0_spec")]
  const Modules_JAVAX_ACTIVATION_API: seq<Coord> := [Coord("javax.activation", "activation"), Coord("jakarta.activation", "jakarta.activation-api"), Coord("javax.activation", "javax.activation-api"), Coord("com.sun.activation", "javax.activation"), Coord("com.sun.activation", "jakarta.activation")]
  const Modules_JAVAX_ANNOTATION_API: seq<Coord> := [Coord("javax.annotation", "jsr250-api"), Coord("jakarta.annotation", "jakarta.annotation-api"), Coord("javax.annotation", "javax.annotation-api"), Coord("org.apache.tomcat", "tomcat-annotations-api")]
  const Modules_JAVAX_EJB_API: seq<Coord> := [Coord("javax.ejb", "ejb"), Coord("jakarta.ejb", "jakarta.ejb-api"), Coord("javax.ejb", "javax.ejb-api"), Coord("javax.ejb", "ejb-api")]
  const Modules_JAVAX_EL_API: seq<Coord> := [Coord("javax.el", "el-api"), Coord("jakarta.el", "jakarta.el-api"), Coord("javax.el", "javax.el-api")]
  const Modules_JAVAX_INJECT_API: seq<Coord> := [Coord("javax.inject", "javax.inject"), Coord("jakarta.inject", "jakarta.inject-api"), Coord("com.jwebmp", "javax.inject"), Coord("org.glassfish.hk2.external", "javax.inject"), Coord("org.glassfish.hk2.external", "jakarta.inject")]
  const Modules_JAVAX_JSON_API: seq<Coord> := [Coord("javax.json", "javax.json-api"), Coord("jakarta.json", "jakarta.json-api"), Coord("org.glassfish", "javax.json"), Coord("org.glassfish", "jakarta.json")]
  const Modules_JAVAX_JWS_API: seq<Coord> := [Coord("javax.jws", "javax.jws-api"), Coord("jakarta.jws", "jakarta.jws-api")]
  const Modules_JAVAX_MAIL_API: seq<Coord> := [Coord("com.sun.mail", "mailapi"), Coord("jakarta.mail", "jakarta.mail-api"), Coord("javax.mail", "javax.mail-api"), Coord("javax.mail", "mail"), Coord("com.sun.mail", "javax.mail"), Coord("com.sun.mail", "jakarta.mail"), Coord("org.apache.geronimo.javamail", "geronimo-javamail_1.3.1_mail"), Coord("org.apache.geronimo.javamail", "geronimo-javamail_1.3.1_provider"), Coord("org.apache.geronimo.specs", "geronimo-javamail_1.3.1_spec"), Coord("org.apache.geronimo.javamail", "geronimo-javamail_1.4_mail"), Coord("org.apache.geronimo.javamail", "geronimo-javamail_1.4_provider"), Coord("org.apache.geronimo.specs", "geronimo-javamail_1.4_spec"), Coord("org.apache.geronimo.javamail", "geronimo-javamail_1.6_mail"), Coord("org.apache.geronimo.javamail", "geronimo-javamail_1.6_provider"), Coord("org.apache.geronimo.specs", "geronimo-javamail_1.6_spec")]
  const Modules_JAVAX_PERSISTENCE_API: seq<Coord> := [Coord("javax.persistence", "javax.persistence-api"), Coord("jakarta.persistence", "jakarta.persistence-api"), Coord("org.hibernate.javax.persistence", "hibernate-jpa-2.2-api"), Coord("org.hibernate.javax.persistence", "hibernate-jpa-2.1-api"), Coord("org.hibernate.javax.persistence", "hibernate-jpa-2.0-api")]
  const Modules_JAVAX_SERVLET_API: seq<Coord> := [Coord("javax.servlet", "servlet-api"), Coord("javax.servlet", "javax.servlet-api"), Coord("jakarta.servlet", "jakarta.servlet-api"), Coord("org.apache.tomcat", "servlet-api"), Coord("org.apache.tomcat", "tomcat-servlet-api"), Coord("org.apache.tomcat.embed", "tomcat-embed-core"), Coord("servletapi", "servletapi")]
  const Modules_JAVAX_SERVLET_JSP: seq<Coord> := [Coord("javax.servlet", "jsp-api"), Coord("javax.servlet.jsp", "jsp-api"), Coord("javax.servlet.jsp", "javax.servlet.jsp-api"), Coord("jakarta.servlet.jsp", "jakarta.servlet.jsp-api")]
  const Modules_JAVAX_SERVLET_JSTL: seq<Coord> := [Coord("javax.servlet", "jstl"), Coord("javax.servlet.jsp.jstl", "jstl-api"), Coord("javax.servlet.jsp.jstl", "javax.servlet.jsp.jstl-api"), Coord("jakarta.servlet.jsp.jstl", "jakarta.servlet.jsp.jstl-api")]
  const Modules_JAVAX_SOAP_API: seq<Coord> := [Coord("javax.xml.soap", "javax.xml.soap-api"), Coord("jakarta.xml.soap", "jakarta.xml.soap-api")]
  const Modules_JAVAX_TRANSACTION_API: seq<Coord> := [Coord("javax.transaction", "jta"), Coord("javax.transaction", "javax.transaction-api"), Coord("jakarta.transaction", "jakarta.transaction-api"), Coord("org.jboss.spec.javax.transaction", "jboss-transaction-api_1.1_spec"), Coord("org.jboss.spec.javax.transaction", "jboss-transaction-api_1.2_spec"), Coord("org.jboss.spec.javax.transaction", "jboss-transaction-api_1.3_spec")]
  const Modules_JAVAX_VALIDATION_API: seq<Coord> := [Coord("javax.validation", "validation-api"), Coord("jakarta.validation", "jakarta.validation-api")]
  const Modules_JAVAX_WEBSOCKET_API_RULE: seq<Coord> := [Coord("javax.websocket", "javax.websocket-api"), Coord("jakarta.websocket", "jakarta.websocket-api"), Coord("javax.websocket", "javax.websocket-client-api"), Coord("jakarta.websocket", "jakarta.websocket-client-api"), Coord("org.apache.tomcat", "tomcat-websocket-api"), Coord("org.apache.tomcat", "tomcat-websocket"), Coord("org.apache.tomcat.embed", "tomcat-embed-websocket"), Coord("org.eclipse.jetty.toolchain", "jetty-javax-websocket-api")]
  const Modules_JAVAX_WS_RS_API: seq<Coord> := [Coord("javax.ws.rs", "jsr311-api"), Coord("org.jboss.spec.javax.ws.rs", "jboss-jaxrs-api_2.1_spec"), Coord("org.jboss.spec.javax.ws.rs", "jboss-jaxrs-api_2.0_spec"), Coord("org.jboss.spec.javax.ws.rs", "jboss-jaxrs-api_1.1_spec"), Coord("org.jboss.resteasy", "jaxrs-api"), Coord("jakarta.ws.rs", "jakarta.ws.rs-api"), Coord("javax.ws.rs", "javax.ws.rs-api")]
  const Modules_JAVAX_XML_BIND_API: seq<Coord> := [Coord("javax.xml.bind", "jaxb-api"), Coord("jakarta.xml.bind", "jakarta.xml.bind-api")]
  const Modules_JAVAX_XML_WS_API: seq<Coord> := [Coord("javax.xml.ws", "jaxws-api"), Coord("jakarta.xml.ws", "jakarta.xml.ws-api")]

  /** The logging modules a logging definition is declared with. */
  function LoggingModules(d: CapabilityDefinition): seq<L.LoggingModule> {
    match d
    case LOG4J2_IMPL => [L.LOG4J_TO_SLF4J, L.LOG4J_CORE]
    case COMMONS_LOGGING_IMPL => [L.COMMONS_LOGGING, L.JCL_OVER_SLF4J, L.SPRING_JCL]
    case SLF4J_VS_JCL => [L.JCL_OVER_SLF4J, L.SLF4J_JCL]
    case SLF4J_VS_LOG4J2_FOR_JCL => [L.JCL_OVER_SLF4J, L.LOG4J_JCL]
    case LOG4J2_VS_SLF4J => [L.LOG4J_SLF4J_IMPL, L.LOG4J_SLF4J2_IMPL, L.LOG4J_TO_SLF4J]
    case SLF4J_IMPL => [L.SLF4J_SIMPLE, L.LOGBACK_CLASSIC, L.SLF4J_LOG4J12, L.SLF4J_JCL, L.SLF4J_JDK14, L.LOG4J_SLF4J_IMPL, L.LOG4J_SLF4J2_IMPL]
    case SLF4J_VS_LOG4J => [L.LOG4J_OVER_SLF4J, L.SLF4J_LOG4J12]
    case SLF4J_VS_LOG4J2_FOR_LOG4J => [L.LOG4J_OVER_SLF4J, L.LOG4J12API, L.LOG4J]
    case SLF4J_VS_JUL => [L.JUL_TO_SLF4J, L.SLF4J_JDK14]
    case SLF4J_VS_LOG4J2_FOR_JUL => [L.JUL_TO_SLF4J, L.LOG4J_JUL]
    case _ => []
  }

  /** `name()`: the constant's identifier. */
  function EnumName(d: CapabilityDefinition): (r: string)
    ensures |r| >= 3
  {
    match d
    case AOPALLIANCE => "AOPALLIANCE"
    case APACHE_CSV => "APACHE_CSV"
    case ASM => "ASM"
    case BOUNCYCASTLE_BCMAIL => "BOUNCYCASTLE_BCMAIL"
    case BOUNCYCASTLE_BCPG => "BOUNCYCASTLE_BCPG"
    case BOUNCYCASTLE_BCPKIX => "BOUNCYCASTLE_BCPKIX"
    case BOUNCYCASTLE_BCPROV => "BOUNCYCASTLE_BCPROV"
    case BOUNCYCASTLE_BCTLS => "BOUNCYCASTLE_BCTLS"
    case BOUNCYCASTLE_BCTSP => "BOUNCYCASTLE_BCTSP"
    case BOUNCYCASTLE_BCUTIL => "BOUNCYCASTLE_BCUTIL"
    case C3P0 => "C3P0"
    case MCHANGE_COMMONS_JAVA => "MCHANGE_COMMONS_JAVA"
    case CGLIB => "CGLIB"
    case COMMONS_BEANUTILS => "COMMONS_BEANUTILS"
    case COMMONS_IO => "COMMONS_IO"
    case DOM4J => "DOM4J"
    case FINDBUGS_ANNOTATIONS => "FINDBUGS_ANNOTATIONS"
    case GOOGLE_COLLECTIONS => "GOOGLE_COLLECTIONS"
    case GUAVA => "GUAVA"
    case JZY3D_EMUL_GL => "JZY3D_EMUL_GL"
    case JZY3D_JGL => "JZY3D_JGL"
    case LZ4 => "LZ4"
    case LISTENABLEFUTURE => "LISTENABLEFUTURE"
    case HAMCREST_LIBRARY => "HAMCREST_LIBRARY"
    case HAMCREST_CORE => "HAMCREST_CORE"
    case HIKARI_CP => "HIKARI_CP"
    case INTELLIJ_ANNOTATIONS => "INTELLIJ_ANNOTATIONS"
    case JAVA_ASSIST => "JAVA_ASSIST"
    case JCIP_ANNOTATIONS => "JCIP_ANNOTATIONS"
    case JNA_PLATFORM => "JNA_PLATFORM"
    case JTS_CORE => "JTS_CORE"
    case JUNIT => "JUNIT"
    case MIGLAYOUT => "MIGLAYOUT"
    case ORG_JSON => "ORG_JSON"
    case MYSQL_CONNECTOR_JAVA => "MYSQL_CONNECTOR_JAVA"
    case POSTGRESQL => "POSTGRESQL"
    case STAX_API => "STAX_API"
    case VELOCITY => "VELOCITY"
    case WOODSTOX_ASL => "WOODSTOX_ASL"
    case JAKARTA_ACTIVATION_API => "JAKARTA_ACTIVATION_API"
    case JAKARTA_ACTIVATION_IMPL => "JAKARTA_ACTIVATION_IMPL"
    case JAKARTA_ANNOTATION_API => "JAKARTA_ANNOTATION_API"
    case JAKARTA_JSON_API => "JAKARTA_JSON_API"
    case JAKARTA_MAIL_API => "JAKARTA_MAIL_API"
    case JAKARTA_SERVLET_API => "JAKARTA_SERVLET_API"
    case JAKARTA_WEBSOCKET_API => "JAKARTA_WEBSOCKET_API"
    case JAKARTA_WEBSOCKET_CLIENT_API => "JAKARTA_WEBSOCKET_CLIENT_API"
    case JAKARTA_WS_RS_API => "JAKARTA_WS_RS_API"
    case JAVAX_ACTIVATION_API => "JAVAX_ACTIVATION_API"
    case JAVAX_ANNOTATION_API => "JAVAX_ANNOTATION_API"
    case JAVAX_EJB_API => "JAVAX_EJB_API"
    case JAVAX_EL_API => "JAVAX_EL_API"
    case JAVAX_INJECT_API => "JAVAX_INJECT_API"
    case JAVAX_JSON_API => "JAVAX_JSON_API"
    case JAVAX_JWS_API => "JAVAX_JWS_API"
    case JAVAX_MAIL_API => "JAVAX_MAIL_API"
    case JAVAX_PERSISTENCE_API => "JAVAX_PERSISTENCE_API"
    case JAVAX_SERVLET_API => "JAVAX_SERVLET_API"
    case JAVAX_SERVLET_JSP => "JAVAX_SERVLET_JSP"
    case JAVAX_SERVLET_JSTL => "JAVAX_SERVLET_JSTL"
    case JAVAX_SOAP_API => "JAVAX_SOAP_API"
    case JAVAX_TRANSACTION_API => "JAVAX_TRANSACTION_API"
    case JAVAX_VALIDATION_API => "JAVAX_VALIDATION_API"
    case JAVAX_WEBSOCKET_API_RULE => "JAVAX_WEBSOCKET_API_RULE"
    case JAVAX_WS_RS_API => "JAVAX_WS_RS_API"
    case JAVAX_XML_BIND_API => "JAVAX_XML_BIND_API"
    case JAVAX_XML_WS_API => "JAVAX_XML_WS_API"
    case LOG4J2_IMPL => "LOG4J2_IMPL"
    case COMMONS_LOGGING_IMPL => "COMMONS_LOGGING_IMPL"
    case SLF4J_VS_JCL => "SLF4J_VS_JCL"
    case SLF4J_VS_LOG4J2_FOR_JCL => "SLF4J_VS_LOG4J2_FOR_JCL"
    case LOG4J2_VS_SLF4J => "LOG4J2_VS_SLF4J"
    case SLF4J_IMPL => "SLF4J_IMPL"
    case SLF4J_VS_LOG4J => "SLF4J_VS_LOG4J"
    case SLF4J_VS_LOG4J2_FOR_LOG4J => "SLF4J_VS_LOG4J2_FOR_LOG4J"
    case SLF4J_VS_JUL => "SLF4J_VS_JUL"
    case SLF4J_VS_LOG4J2_FOR_JUL => "SLF4J_VS_LOG4J2_FOR_JUL"
  }

  function Group(d: CapabilityDefinition): string {
    match GroupArgument(d)
    case Some(g) => g
    case None => DefaultGroup
  }

  function RuleClassOf(d: CapabilityDefinition): RuleClass {
    match RuleClassArgument(d)
    case Some(r) => r
    case None => CapabilityDefinitionRule
  }

  /** `getModules()`: the modules as `group:name` strings, in declared order. */
  function GetModules(d: CapabilityDefinition): (r: seq<string>)
    ensures |r| == |Modules(d)|
    ensures forall k :: 0 <= k < |r| ==> r[k] == ModuleId(Modules(d)[k])
  {
    ModuleIds(Modules(d))
  }

  function ModuleIds(cs: seq<Coord>): (r: seq<string>)
    ensures |r| == |cs|
    ensures forall k :: 0 <= k < |r| ==> r[k] == ModuleId(cs[k])
  {
    if |cs| == 0 then [] else [ModuleId(cs[0])] + ModuleIds(cs[1..])
  }

  /** A character that may appear in an enum constant's identifier. */
  predicate EnumChar(c: char) {
    IsUpper(c) || IsDigit(c) || c == '_'
  }

  predicate EnumChars(s: string) {
    forall i :: 0 <= i < |s| ==> EnumChar(s[i])
  }

  function KebabChar(c: char): char {
    if c == '_' then '-' else LowerChar(c)
  }

  /** `name().toLowerCase().replace("_", "-")`. */
  function NameInKebabCase(s: string): (r: string)
    ensures |r| == |s|
    ensures forall i :: 0 <= i < |s| ==> r[i] == KebabChar(s[i])
  {
    ReplaceChar(ToLower(s), '_', '-')
  }

  /** `getCapabilityName()`. */
  function CapabilityName(d: CapabilityDefinition): string {
    NameInKebabCase(EnumName(d))
  }

  /** `getCapability()`: `group:capabilityName`. */
  function GetCapability(d: CapabilityDefinition): string {
    ModuleId(Coord(Group(d), CapabilityName(d)))
  }

  /** The definitions whose modules are all logging modules. */
  predicate IsLoggingDefinition(d: CapabilityDefinition) {
    d in {LOG4J2_IMPL, COMMONS_LOGGING_IMPL, SLF4J_VS_JCL, SLF4J_VS_LOG4J2_FOR_JCL, LOG4J2_VS_SLF4J, SLF4J_IMPL, SLF4J_VS_LOG4J, SLF4J_VS_LOG4J2_FOR_LOG4J, SLF4J_VS_JUL, SLF4J_VS_LOG4J2_FOR_JUL}
  }

  /** A kebab-cased identifier holds no upper-case letter, no '_' and no ':'. */
  lemma KebabShape(s: string)
    requires EnumChars(s)
    ensures forall i :: 0 <= i < |s| ==> var c := NameInKebabCase(s)[i]; !IsUpper(c) && c != '_' && c != ':'
  {
  }

  /** Kebab-casing is injective on enum identifiers: letters, digits and '_'
      land in disjoint classes. */
  lemma KebabInjective(s: string, t: string)
    requires EnumChars(s) && EnumChars(t)
    ensures NameInKebabCase(s) == NameInKebabCase(t) <==> s == t
  {
    if NameInKebabCase(s) == NameInKebabCase(t) {
      forall i | 0 <= i < |s|
        ensures s[i] == t[i]
      {
        assert KebabChar(s[i]) == KebabChar(t[i]);
      }
    }
  }


  lemma EnumChars_AOPALLIANCE() ensures EnumChars(EnumName(AOPALLIANCE)) {}
  lemma EnumChars_APACHE_CSV() ensures EnumChars(EnumName(APACHE_CSV)) {}
  lemma EnumChars_ASM() ensures EnumChars(EnumName(ASM)) {}
  lemma EnumChars_BOUNCYCASTLE_BCMAIL() ensures EnumChars(EnumName(BOUNCYCASTLE_BCMAIL)) {}
  lemma EnumChars_BOUNCYCASTLE_BCPG() ensures EnumChars(EnumName(BOUNCYCASTLE_BCPG)) {}
  lemma EnumChars_BOUNCYCASTLE_BCPKIX() ensures EnumChars(EnumName(BOUNCYCASTLE_BCPKIX)) {}
  lemma EnumChars_BOUNCYCASTLE_BCPROV() ensures EnumChars(EnumName(BOUNCYCASTLE_BCPROV)) {}
  lemma EnumChars_BOUNCYCASTLE_BCTLS() ensures EnumChars(EnumName(BOUNCYCASTLE_BCTLS)) {}
  lemma EnumChars_BOUNCYCASTLE_BCTSP() ensures EnumChars(EnumName(BOUNCYCASTLE_BCTSP)) {}
  lemma EnumChars_BOUNCYCASTLE_BCUTIL() ensures EnumChars(EnumName(BOUNCYCASTLE_BCUTIL)) {}
  lemma EnumChars_C3P0() ensures EnumChars(EnumName(C3P0)) {}
  lemma EnumChars_MCHANGE_COMMONS_JAVA() ensures EnumChars(EnumName(MCHANGE_COMMONS_JAVA)) {}
  lemma EnumChars_CGLIB() ensures EnumChars(EnumName(CGLIB)) {}
  lemma EnumChars_COMMONS_BEANUTILS() ensures EnumChars(EnumName(COMMONS_BEANUTILS)) {}
  lemma EnumChars_COMMONS_IO() ensures EnumChars(EnumName(COMMONS_IO)) {}
  lemma EnumChars_DOM4J() ensures EnumChars(EnumName(DOM4J)) {}
  lemma EnumChars_FINDBUGS_ANNOTATIONS() ensures EnumChars(EnumName(FINDBUGS_ANNOTATIONS)) {}
  lemma EnumChars_GOOGLE_COLLECTIONS() ensures EnumChars(EnumName(GOOGLE_COLLECTIONS)) {}
  lemma EnumChars_GUAVA() ensures EnumChars(EnumName(GUAVA)) {}
  lemma EnumChars_JZY3D_EMUL_GL() ensures EnumChars(EnumName(JZY3D_EMUL_GL)) {}
  lemma EnumChars_JZY3D_JGL() ensures EnumChars(EnumName(JZY3D_JGL)) {}
  lemma EnumChars_LZ4() ensures EnumChars(EnumName(LZ4)) {}
  lemma EnumChars_LISTENABLEFUTURE() ensures EnumChars(EnumName(LISTENABLEFUTURE)) {}
  lemma EnumChars_HAMCREST_LIBRARY() ensures EnumChars(EnumName(HAMCREST_LIBRARY)) {}
  lemma EnumChars_HAMCREST_CORE() ensures EnumChars(EnumName(HAMCREST_CORE)) {}
  lemma EnumChars_HIKARI_CP() ensures EnumChars(EnumName(HIKARI_CP)) {}
  lemma EnumChars_INTELLIJ_ANNOTATIONS() ensures EnumChars(EnumName(INTELLIJ_ANNOTATIONS)) {}
  lemma EnumChars_JAVA_ASSIST() ensures EnumChars(EnumName(JAVA_ASSIST)) {}
  lemma EnumChars_JCIP_ANNOTATIONS() ensures EnumChars(EnumName(JCIP_ANNOTATIONS)) {}
  lemma EnumChars_JNA_PLATFORM() ensures EnumChars(EnumName(JNA_PLATFORM)) {}
  lemma EnumChars_JTS_CORE() ensures EnumChars(EnumName(JTS_CORE)) {}
  lemma EnumChars_JUNIT() ensures EnumChars(EnumName(JUNIT)) {}
  lemma EnumChars_MIGLAYOUT() ensures EnumChars(EnumName(MIGLAYOUT)) {}
  lemma EnumChars_ORG_JSON() ensures EnumChars(EnumName(ORG_JSON)) {}
  lemma EnumChars_MYSQL_CONNECTOR_JAVA() ensures EnumChars(EnumName(MYSQL_CONNECTOR_JAVA)) {}
  lemma EnumChars_POSTGRESQL() ensures EnumChars(EnumName(POSTGRESQL)) {}
  lemma EnumChars_STAX_API() ensures EnumChars(EnumName(STAX_API)) {}
  lemma EnumChars_VELOCITY() ensures EnumChars(EnumName(VELOCITY)) {}
  lemma EnumChars_WOODSTOX_ASL() ensures EnumChars(EnumName(WOODSTOX_ASL)) {}
  lemma EnumChars_JAKARTA_ACTIVATION_API() ensures EnumChars(EnumName(JAKARTA_ACTIVATION_API)) {}
  lemma EnumChars_JAKARTA_ACTIVATION_IMPL() ensures EnumChars(EnumName(JAKARTA_ACTIVATION_IMPL)) {}
  lemma EnumChars_JAKARTA_ANNOTATION_API() ensures EnumChars(EnumName(JAKARTA_ANNOTATION_API)) {}
  lemma EnumChars_JAKARTA_JSON_API() ensures EnumChars(EnumName(JAKARTA_JSON_API)) {}
  lemma EnumChars_JAKARTA_MAIL_API() ensures EnumChars(EnumName(JAKARTA_MAIL_API)) {}
  lemma EnumChars_JAKARTA_SERVLET_API() ensures EnumChars(EnumName(JAKARTA_SERVLET_API)) {}
  lemma EnumChars_JAKARTA_WEBSOCKET_API() ensures EnumChars(EnumName(JAKARTA_WEBSOCKET_API)) {}
  lemma EnumChars_JAKARTA_WEBSOCKET_CLIENT_API() ensures EnumChars(EnumName(JAKARTA_WEBSOCKET_CLIENT_API)) {}
  lemma EnumChars_JAKARTA_WS_RS_API() ensures EnumChars(EnumName(JAKARTA_WS_RS_API)) {}
  lemma EnumChars_JAVAX_ACTIVATION_API() ensures EnumChars(EnumName(JAVAX_ACTIVATION_API)) {}
  lemma EnumChars_JAVAX_ANNOTATION_API() ensures EnumChars(EnumName(JAVAX_ANNOTATION_API)) {}
  lemma EnumChars_JAVAX_EJB_API() ensures EnumChars(EnumName(JAVAX_EJB_API)) {}
  lemma EnumChars_JAVAX_EL_API() ensures EnumChars(EnumName(JAVAX_EL_API)) {}
  lemma EnumChars_JAVAX_INJECT_API() ensures EnumChars(EnumName(JAVAX_INJECT_API)) {}
  lemma EnumChars_JAVAX_JSON_API() ensures EnumChars(EnumName(JAVAX_JSON_API)) {}
  lemma EnumChars_JAVAX_JWS_API() ensures EnumChars(EnumName(JAVAX_JWS_API)) {}
  lemma EnumChars_JAVAX_MAIL_API() ensures EnumChars(EnumName(JAVAX_MAIL_API)) {}
  lemma EnumChars_JAVAX_PERSISTENCE_API() ensures EnumChars(EnumName(JAVAX_PERSISTENCE_API)) {}
  lemma EnumChars_JAVAX_SERVLET_API() ensures EnumChars(EnumName(JAVAX_SERVLET_API)) {}
  lemma EnumChars_JAVAX_SERVLET_JSP() ensures EnumChars(EnumName(JAVAX_SERVLET_JSP)) {}
  lemma EnumChars_JAVAX_SERVLET_JSTL() ensures EnumChars(EnumName(JAVAX_SERVLET_JSTL)) {}
  lemma EnumChars_JAVAX_SOAP_API() ensures EnumChars(EnumName(JAVAX_SOAP_API)) {}
  lemma EnumChars_JAVAX_TRANSACTION_API() ensures EnumChars(EnumName(JAVAX_TRANSACTION_API)) {}
  lemma EnumChars_JAVAX_VALIDATION_API() ensures EnumChars(EnumName(JAVAX_VALIDATION_API)) {}
  lemma EnumChars_JAVAX_WEBSOCKET_API_RULE() ensures EnumChars(EnumName(JAVAX_WEBSOCKET_API_RULE)) {}
  lemma EnumChars_JAVAX_WS_RS_API() ensures EnumChars(EnumName(JAVAX_WS_RS_API)) {}
  lemma EnumChars_JAVAX_XML_BIND_API() ensures EnumChars(EnumName(JAVAX_XML_BIND_API)) {}
  lemma EnumChars_JAVAX_XML_WS_API() ensures EnumChars(EnumName(JAVAX_XML_WS_API)) {}
  lemma EnumChars_LOG4J2_IMPL() ensures EnumChars(EnumName(LOG4J2_IMPL)) {}
  lemma EnumChars_COMMONS_LOGGING_IMPL() ensures EnumChars(EnumName(COMMONS_LOGGING_IMPL)) {}
  lemma EnumChars_SLF4J_VS_JCL() ensures EnumChars(EnumName(SLF4J_VS_JCL)) {}
  lemma EnumChars_SLF4J_VS_LOG4J2_FOR_JCL() ensures EnumChars(EnumName(SLF4J_VS_LOG4J2_FOR_JCL)) {}
  lemma EnumChars_LOG4J2_VS_SLF4J() ensures EnumChars(EnumName(LOG4J2_VS_SLF4J)) {}
  lemma EnumChars_SLF4J_IMPL() ensures EnumChars(EnumName(SLF4J_IMPL)) {}
  lemma EnumChars_SLF4J_VS_LOG4J() ensures EnumChars(EnumName(SLF4J_VS_LOG4J)) {}
  lemma EnumChars_SLF4J_VS_LOG4J2_FOR_LOG4J() ensures EnumChars(EnumName(SLF4J_VS_LOG4J2_FOR_LOG4J)) {}
  lemma EnumChars_SLF4J_VS_JUL() ensures EnumChars(EnumName(SLF4J_VS_JUL)) {}
  lemma EnumChars_SLF4J_VS_LOG4J2_FOR_JUL() ensures EnumChars(EnumName(SLF4J_VS_LOG4J2_FOR_JUL)) {}


  /** The constant a string is the identifier of, read from its length and
      a few of its characters; for a string that is no constant's
      identifier the answer is some constant. */
  function ByEnumName(s: string): CapabilityDefinition {
    if |s| == 3 then
      (if s[0] == 'A' then ASM
        else LZ4)
    else if |s| == 4 then
      C3P0
    else if |s| == 5 then
      (if s[0] == 'C' then CGLIB
        else if s[0] == 'D' then DOM4J
        else if s[0] == 'G' then GUAVA
        else JUNIT)
    else if |s| == 8 then
      (if s[0] == 'J' then JTS_CORE
        else if s[0] == 'O' then ORG_JSON
        else if s[0] == 'S' then STAX_API
        else VELOCITY)
    else if |s| == 9 then
      (if s[0] == 'J' then JZY3D_JGL
        else if s[0] == 'H' then HIKARI_CP
        else MIGLAYOUT)
    else if |s| == 10 then
      (if s[0] == 'A' then APACHE_CSV
        else if s[0] == 'C' then COMMONS_IO
        else if s[0] == 'P' then POSTGRESQL
        else SLF4J_IMPL)
    else if |s| == 11 then
      (if s[0] == 'A' then AOPALLIANCE
        else if s[0] == 'J' then JAVA_ASSIST
        else LOG4J2_IMPL)
    else if |s| == 12 then
      (if s[10] == 'R' then JNA_PLATFORM
        else if s[10] == 'S' then WOODSTOX_ASL
        else if s[10] == 'P' then JAVAX_EL_API
        else if s[10] == 'C' then SLF4J_VS_JCL
        else SLF4J_VS_JUL)
    else if |s| == 13 then
      (if s[7] == 'M' then JZY3D_EMUL_GL
        else if s[7] == 'T' then HAMCREST_CORE
        else if s[7] == 'J' then JAVAX_EJB_API
        else JAVAX_JWS_API)
    else if |s| == 14 then
      (if s[6] == 'J' then JAVAX_JSON_API
        else if s[6] == 'M' then JAVAX_MAIL_API
        else if s[6] == 'S' then JAVAX_SOAP_API
        else SLF4J_VS_LOG4J)
    else if |s| == 15 then
      (if s[0] == 'J' then JAVAX_WS_RS_API
        else LOG4J2_VS_SLF4J)
    else if |s| == 16 then
      (if s[9] == 'E' then (if s[0] == 'L' then LISTENABLEFUTURE
          else JAVAX_INJECT_API)
        else if s[9] == 'L' then HAMCREST_LIBRARY
        else if s[9] == 'T' then JCIP_ANNOTATIONS
        else if s[9] == 'S' then JAKARTA_JSON_API
        else if s[9] == 'A' then JAKARTA_MAIL_API
        else JAVAX_XML_WS_API)
    else if |s| == 17 then
      (if s[2] == 'U' then BOUNCYCASTLE_BCPG
        else if s[2] == 'M' then COMMONS_BEANUTILS
        else if s[2] == 'K' then JAKARTA_WS_RS_API
        else (if s[14] == 'A' then JAVAX_SERVLET_API
          else JAVAX_SERVLET_JSP))
    else if |s| == 18 then
      (if s[16] == 'L' then BOUNCYCASTLE_BCTLS
        else if s[16] == 'S' then BOUNCYCASTLE_BCTSP
        else if s[16] == 'N' then GOOGLE_COLLECTIONS
        else if s[16] == 'T' then JAVAX_SERVLET_JSTL
        else JAVAX_XML_BIND_API)
    else if |s| == 19 then
      (if s[15] == 'M' then BOUNCYCASTLE_BCMAIL
        else if s[15] == 'P' then (if s[16] == 'K' then BOUNCYCASTLE_BCPKIX
          else BOUNCYCASTLE_BCPROV)
        else if s[15] == 'U' then BOUNCYCASTLE_BCUTIL
        else JAKARTA_SERVLET_API)
    else if |s| == 20 then
      (if s[6] == 'E' then MCHANGE_COMMONS_JAVA
        else if s[6] == 'G' then FINDBUGS_ANNOTATIONS
        else if s[6] == 'I' then INTELLIJ_ANNOTATIONS
        else if s[6] == 'C' then MYSQL_CONNECTOR_JAVA
        else if s[6] == 'A' then (if s[7] == 'C' then JAVAX_ACTIVATION_API
          else JAVAX_ANNOTATION_API)
        else if s[6] == 'V' then JAVAX_VALIDATION_API
        else COMMONS_LOGGING_IMPL)
    else if |s| == 21 then
      (if s[6] == 'A' then JAKARTA_WEBSOCKET_API
        else if s[6] == 'P' then JAVAX_PERSISTENCE_API
        else JAVAX_TRANSACTION_API)
    else if |s| == 22 then
      (if s[9] == 'C' then JAKARTA_ACTIVATION_API
        else JAKARTA_ANNOTATION_API)
    else if |s| == 23 then
      (if s[21] == 'P' then JAKARTA_ACTIVATION_IMPL
        else if s[21] == 'C' then SLF4J_VS_LOG4J2_FOR_JCL
        else SLF4J_VS_LOG4J2_FOR_JUL)
    else if |s| == 24 then
      JAVAX_WEBSOCKET_API_RULE
    else if |s| == 25 then
      SLF4J_VS_LOG4J2_FOR_LOG4J
    else
      JAKARTA_WEBSOCKET_CLIENT_API
  }

  lemma ByEnumName_AOPALLIANCE() ensures ByEnumName(EnumName(AOPALLIANCE)) == AOPALLIANCE {}
  lemma ByEnumName_APACHE_CSV() ensures ByEnumName(EnumName(APACHE_CSV)) == APACHE_CSV {}
  lemma ByEnumName_ASM() ensures ByEnumName(EnumName(ASM)) == ASM {}
  lemma ByEnumName_BOUNCYCASTLE_BCMAIL() ensures ByEnumName(EnumName(BOUNCYCASTLE_BCMAIL)) == BOUNCYCASTLE_BCMAIL {}
  lemma ByEnumName_BOUNCYCASTLE_BCPG() ensures ByEnumName(EnumName(BOUNCYCASTLE_BCPG)) == BOUNCYCASTLE_BCPG {}
  lemma ByEnumName_BOUNCYCASTLE_BCPKIX() ensures ByEnumName(EnumName(BOUNCYCASTLE_BCPKIX)) == BOUNCYCASTLE_BCPKIX {}
  lemma ByEnumName_BOUNCYCASTLE_BCPROV() ensures ByEnumName(EnumName(BOUNCYCASTLE_BCPROV)) == BOUNCYCASTLE_BCPROV {}
  lemma ByEnumName_BOUNCYCASTLE_BCTLS() ensures ByEnumName(EnumName(BOUNCYCASTLE_BCTLS)) == BOUNCYCASTLE_BCTLS {}
  lemma ByEnumName_BOUNCYCASTLE_BCTSP() ensures ByEnumName(EnumName(BOUNCYCASTLE_BCTSP)) == BOUNCYCASTLE_BCTSP {}
  lemma ByEnumName_BOUNCYCASTLE_BCUTIL() ensures ByEnumName(EnumName(BOUNCYCASTLE_BCUTIL)) == BOUNCYCASTLE_BCUTIL {}
  lemma ByEnumName_C3P0() ensures ByEnumName(EnumName(C3P0)) == C3P0 {}
  lemma ByEnumName_MCHANGE_COMMONS_JAVA() ensures ByEnumName(EnumName(MCHANGE_COMMONS_JAVA)) == MCHANGE_COMMONS_JAVA {}
  lemma ByEnumName_CGLIB() ensures ByEnumName(EnumName(CGLIB)) == CGLIB {}
  lemma ByEnumName_COMMONS_BEANUTILS() ensures ByEnumName(EnumName(COMMONS_BEANUTILS)) == COMMONS_BEANUTILS {}
  lemma ByEnumName_COMMONS_IO() ensures ByEnumName(EnumName(COMMONS_IO)) == COMMONS_IO {}
  lemma ByEnumName_DOM4J() ensures ByEnumName(EnumName(DOM4J)) == DOM4J {}
  lemma ByEnumName_FINDBUGS_ANNOTATIONS() ensures ByEnumName(EnumName(FINDBUGS_ANNOTATIONS)) == FINDBUGS_ANNOTATIONS {}
  lemma ByEnumName_GOOGLE_COLLECTIONS() ensures ByEnumName(EnumName(GOOGLE_COLLECTIONS)) == GOOGLE_COLLECTIONS {}
  lemma ByEnumName_GUAVA() ensures ByEnumName(EnumName(GUAVA)) == GUAVA {}
  lemma ByEnumName_JZY3D_EMUL_GL() ensures ByEnumName(EnumName(JZY3D_EMUL_GL)) == JZY3D_EMUL_GL {}
  lemma ByEnumName_JZY3D_JGL() ensures ByEnumName(EnumName(JZY3D_JGL)) == JZY3D_JGL {}
  lemma ByEnumName_LZ4() ensures ByEnumName(EnumName(LZ4)) == LZ4 {}
  lemma ByEnumName_LISTENABLEFUTURE() ensures ByEnumName(EnumName(LISTENABLEFUTURE)) == LISTENABLEFUTURE {}
  lemma ByEnumName_HAMCREST_LIBRARY() ensures ByEnumName(EnumName(HAMCREST_LIBRARY)) == HAMCREST_LIBRARY {}
  lemma ByEnumName_HAMCREST_CORE() ensures ByEnumName(EnumName(HAMCREST_CORE)) == HAMCREST_CORE {}
  lemma ByEnumName_HIKARI_CP() ensures ByEnumName(EnumName(HIKARI_CP)) == HIKARI_CP {}
  lemma ByEnumName_INTELLIJ_ANNOTATIONS() ensures ByEnumName(EnumName(INTELLIJ_ANNOTATIONS)) == INTELLIJ_ANNOTATIONS {}
  lemma ByEnumName_JAVA_ASSIST() ensures ByEnumName(EnumName(JAVA_ASSIST)) == JAVA_ASSIST {}
  lemma ByEnumName_JCIP_ANNOTATIONS() ensures ByEnumName(EnumName(JCIP_ANNOTATIONS)) == JCIP_ANNOTATIONS {}
  lemma ByEnumName_JNA_PLATFORM() ensures ByEnumName(EnumName(JNA_PLATFORM)) == JNA_PLATFORM {}
  lemma ByEnumName_JTS_CORE() ensures ByEnumName(EnumName(JTS_CORE)) == JTS_CORE {}
  lemma ByEnumName_JUNIT() ensures ByEnumName(EnumName(JUNIT)) == JUNIT {}
  lemma ByEnumName_MIGLAYOUT() ensures ByEnumName(EnumName(MIGLAYOUT)) == MIGLAYOUT {}
  lemma ByEnumName_ORG_JSON() ensures ByEnumName(EnumName(ORG_JSON)) == ORG_JSON {}
  lemma ByEnumName_MYSQL_CONNECTOR_JAVA() ensures ByEnumName(EnumName(MYSQL_CONNECTOR_JAVA)) == MYSQL_CONNECTOR_JAVA {}
  lemma ByEnumName_POSTGRESQL() ensures ByEnumName(EnumName(POSTGRESQL)) == POSTGRESQL {}
  lemma ByEnumName_STAX_API() ensures ByEnumName(EnumName(STAX_API)) == STAX_API {}
  lemma ByEnumName_VELOCITY() ensures ByEnumName(EnumName(VELOCITY)) == VELOCITY {}
  lemma ByEnumName_WOODSTOX_ASL() ensures ByEnumName(EnumName(WOODSTOX_ASL)) == WOODSTOX_ASL {}
  lemma ByEnumName_JAKARTA_ACTIVATION_API() ensures ByEnumName(EnumName(JAKARTA_ACTIVATION_API)) == JAKARTA_ACTIVATION_API {}
  lemma ByEnumName_JAKARTA_ACTIVATION_IMPL() ensures ByEnumName(EnumName(JAKARTA_ACTIVATION_IMPL)) == JAKARTA_ACTIVATION_IMPL {}
  lemma ByEnumName_JAKARTA_ANNOTATION_API() ensures ByEnumName(EnumName(JAKARTA_ANNOTATION_API)) == JAKARTA_ANNOTATION_API {}
  lemma ByEnumName_JAKARTA_JSON_API() ensures ByEnumName(EnumName(JAKARTA_JSON_API)) == JAKARTA_JSON_API {}
  lemma ByEnumName_JAKARTA_MAIL_API() ensures ByEnumName(EnumName(JAKARTA_MAIL_API)) == JAKARTA_MAIL_API {}
  lemma ByEnumName_JAKARTA_SERVLET_API() ensures ByEnumName(EnumName(JAKARTA_SERVLET_API)) == JAKARTA_SERVLET_API {}
  lemma ByEnumName_JAKARTA_WEBSOCKET_API() ensures ByEnumName(EnumName(JAKARTA_WEBSOCKET_API)) == JAKARTA_WEBSOCKET_API {}
  lemma ByEnumName_JAKARTA_WEBSOCKET_CLIENT_API() ensures ByEnumName(EnumName(JAKARTA_WEBSOCKET_CLIENT_API)) == JAKARTA_WEBSOCKET_CLIENT_API {}
  lemma ByEnumName_JAKARTA_WS_RS_API() ensures ByEnumName(EnumName(JAKARTA_WS_RS_API)) == JAKARTA_WS_RS_API {}
  lemma ByEnumName_JAVAX_ACTIVATION_API() ensures ByEnumName(EnumName(JAVAX_ACTIVATION_API)) == JAVAX_ACTIVATION_API {}
  lemma ByEnumName_JAVAX_ANNOTATION_API() ensures ByEnumName(EnumName(JAVAX_ANNOTATION_API)) == JAVAX_ANNOTATION_API {}
  lemma ByEnumName_JAVAX_EJB_API() ensures ByEnumName(EnumName(JAVAX_EJB_API)) == JAVAX_EJB_API {}
  lemma ByEnumName_JAVAX_EL_API() ensures ByEnumName(EnumName(JAVAX_EL_API)) == JAVAX_EL_API {}
  lemma ByEnumName_JAVAX_INJECT_API() ensures ByEnumName(EnumName(JAVAX_INJECT_API)) == JAVAX_INJECT_API {}
  lemma ByEnumName_JAVAX_JSON_API() ensures ByEnumName(EnumName(JAVAX_JSON_API)) == JAVAX_JSON_API {}
  lemma ByEnumName_JAVAX_JWS_API() ensures ByEnumName(EnumName(JAVAX_JWS_API)) == JAVAX_JWS_API {}
  lemma ByEnumName_JAVAX_MAIL_API() ensures ByEnumName(EnumName(JAVAX_MAIL_API)) == JAVAX_MAIL_API {}
  lemma ByEnumName_JAVAX_PERSISTENCE_API() ensures ByEnumName(EnumName(JAVAX_PERSISTENCE_API)) == JAVAX_PERSISTENCE_API {}
  lemma ByEnumName_JAVAX_SERVLET_API() ensures ByEnumName(EnumName(JAVAX_SERVLET_API)) == JAVAX_SERVLET_API {}
  lemma ByEnumName_JAVAX_SERVLET_JSP() ensures ByEnumName(EnumName(JAVAX_SERVLET_JSP)) == JAVAX_SERVLET_JSP {}
  lemma ByEnumName_JAVAX_SERVLET_JSTL() ensures ByEnumName(EnumName(JAVAX_SERVLET_JSTL)) == JAVAX_SERVLET_JSTL {}
  lemma ByEnumName_JAVAX_SOAP_API() ensures ByEnumName(EnumName(JAVAX_SOAP_API)) == JAVAX_SOAP_API {}
  lemma ByEnumName_JAVAX_TRANSACTION_API() ensures ByEnumName(EnumName(JAVAX_TRANSACTION_API)) == JAVAX_TRANSACTION_API {}
  lemma ByEnumName_JAVAX_VALIDATION_API() ensures ByEnumName(EnumName(JAVAX_VALIDATION_API)) == JAVAX_VALIDATION_API {}
  lemma ByEnumName_JAVAX_WEBSOCKET_API_RULE() ensures ByEnumName(EnumName(JAVAX_WEBSOCKET_API_RULE)) == JAVAX_WEBSOCKET_API_RULE {}
  lemma ByEnumName_JAVAX_WS_RS_API() ensures ByEnumName(EnumName(JAVAX_WS_RS_API)) == JAVAX_WS_RS_API {}
  lemma ByEnumName_JAVAX_XML_BIND_API() ensures ByEnumName(EnumName(JAVAX_XML_BIND_API)) == JAVAX_XML_BIND_API {}
  lemma ByEnumName_JAVAX_XML_WS_API() ensures ByEnumName(EnumName(JAVAX_XML_WS_API)) == JAVAX_XML_WS_API {}
  lemma ByEnumName_LOG4J2_IMPL() ensures ByEnumName(EnumName(LOG4J2_IMPL)) == LOG4J2_IMPL {}
  lemma ByEnumName_COMMONS_LOGGING_IMPL() ensures ByEnumName(EnumName(COMMONS_LOGGING_IMPL)) == COMMONS_LOGGING_IMPL {}
  lemma ByEnumName_SLF4J_VS_JCL() ensures ByEnumName(EnumName(SLF4J_VS_JCL)) == SLF4J_VS_JCL {}
  lemma ByEnumName_SLF4J_VS_LOG4J2_FOR_JCL() ensures ByEnumName(EnumName(SLF4J_VS_LOG4J2_FOR_JCL)) == SLF4J_VS_LOG4J2_FOR_JCL {}
  lemma ByEnumName_LOG4J2_VS_SLF4J() ensures ByEnumName(EnumName(LOG4J2_VS_SLF4J)) == LOG4J2_VS_SLF4J {}
  lemma ByEnumName_SLF4J_IMPL() ensures ByEnumName(EnumName(SLF4J_IMPL)) == SLF4J_IMPL {}
  lemma ByEnumName_SLF4J_VS_LOG4J() ensures ByEnumName(EnumName(SLF4J_VS_LOG4J)) == SLF4J_VS_LOG4J {}
  lemma ByEnumName_SLF4J_VS_LOG4J2_FOR_LOG4J() ensures ByEnumName(EnumName(SLF4J_VS_LOG4J2_FOR_LOG4J)) == SLF4J_VS_LOG4J2_FOR_LOG4J {}
  lemma ByEnumName_SLF4J_VS_JUL() ensures ByEnumName(EnumName(SLF4J_VS_JUL)) == SLF4J_VS_JUL {}
  lemma ByEnumName_SLF4J_VS_LOG4J2_FOR_JUL() ensures ByEnumName(EnumName(SLF4J_VS_LOG4J2_FOR_JUL)) == SLF4J_VS_LOG4J2_FOR_JUL {}

  /** `ByEnumName` undoes `EnumName`. */
  lemma ByEnumNameInverse(d: CapabilityDefinition)
    ensures ByEnumName(EnumName(d)) == d
  {
    match d
    case AOPALLIANCE => ByEnumName_AOPALLIANCE();
    case APACHE_CSV => ByEnumName_APACHE_CSV();
    case ASM => ByEnumName_ASM();
    case BOUNCYCASTLE_BCMAIL => ByEnumName_BOUNCYCASTLE_BCMAIL();
    case BOUNCYCASTLE_BCPG => ByEnumName_BOUNCYCASTLE_BCPG();
    case BOUNCYCASTLE_BCPKIX => ByEnumName_BOUNCYCASTLE_BCPKIX();
    case BOUNCYCASTLE_BCPROV => ByEnumName_BOUNCYCASTLE_BCPROV();
    case BOUNCYCASTLE_BCTLS => ByEnumName_BOUNCYCASTLE_BCTLS();
    case BOUNCYCASTLE_BCTSP => ByEnumName_BOUNCYCASTLE_BCTSP();
    case BOUNCYCASTLE_BCUTIL => ByEnumName_BOUNCYCASTLE_BCUTIL();
    case C3P0 => ByEnumName_C3P0();
    case MCHANGE_COMMONS_JAVA => ByEnumName_MCHANGE_COMMONS_JAVA();
    case CGLIB => ByEnumName_CGLIB();
    case COMMONS_BEANUTILS => ByEnumName_COMMONS_BEANUTILS();
    case COMMONS_IO => ByEnumName_COMMONS_IO();
    case DOM4J => ByEnumName_DOM4J();
    case FINDBUGS_ANNOTATIONS => ByEnumName_FINDBUGS_ANNOTATIONS();
    case GOOGLE_COLLECTIONS => ByEnumName_GOOGLE_COLLECTIONS();
    case GUAVA => ByEnumName_GUAVA();
    case JZY3D_EMUL_GL => ByEnumName_JZY3D_EMUL_GL();
    case JZY3D_JGL => ByEnumName_JZY3D_JGL();
    case LZ4 => ByEnumName_LZ4();
    case LISTENABLEFUTURE => ByEnumName_LISTENABLEFUTURE();
    case HAMCREST_LIBRARY => ByEnumName_HAMCREST_LIBRARY();
    case HAMCREST_CORE => ByEnumName_HAMCREST_CORE();
    case HIKARI_CP => ByEnumName_HIKARI_CP();
    case INTELLIJ_ANNOTATIONS => ByEnumName_INTELLIJ_ANNOTATIONS();
    case JAVA_ASSIST => ByEnumName_JAVA_ASSIST();
    case JCIP_ANNOTATIONS => ByEnumName_JCIP_ANNOTATIONS();
    case JNA_PLATFORM => ByEnumName_JNA_PLATFORM();
    case JTS_CORE => ByEnumName_JTS_CORE();
    case JUNIT => ByEnumName_JUNIT();
    case MIGLAYOUT => ByEnumName_MIGLAYOUT();
    case ORG_JSON => ByEnumName_ORG_JSON();
    case MYSQL_CONNECTOR_JAVA => ByEnumName_MYSQL_CONNECTOR_JAVA();
    case POSTGRESQL => ByEnumName_POSTGRESQL();
    case STAX_API => ByEnumName_STAX_API();
    case VELOCITY => ByEnumName_VELOCITY();
    case WOODSTOX_ASL => ByEnumName_WOODSTOX_ASL();
    case JAKARTA_ACTIVATION_API => ByEnumName_JAKARTA_ACTIVATION_API();
    case JAKARTA_ACTIVATION_IMPL => ByEnumName_JAKARTA_ACTIVATION_IMPL();
    case JAKARTA_ANNOTATION_API => ByEnumName_JAKARTA_ANNOTATION_API();
    case JAKARTA_JSON_API => ByEnumName_JAKARTA_JSON_API();
    case JAKARTA_MAIL_API => ByEnumName_JAKARTA_MAIL_API();
    case JAKARTA_SERVLET_API => ByEnumName_JAKARTA_SERVLET_API();
    case JAKARTA_WEBSOCKET_API => ByEnumName_JAKARTA_WEBSOCKET_API();
    case JAKARTA_WEBSOCKET_CLIENT_API => ByEnumName_JAKARTA_WEBSOCKET_CLIENT_API();
    case JAKARTA_WS_RS_API => ByEnumName_JAKARTA_WS_RS_API();
    case JAVAX_ACTIVATION_API => ByEnumName_JAVAX_ACTIVATION_API();
    case JAVAX_ANNOTATION_API => ByEnumName_JAVAX_ANNOTATION_API();
    case JAVAX_EJB_API => ByEnumName_JAVAX_EJB_API();
    case JAVAX_EL_API => ByEnumName_JAVAX_EL_API();
    case JAVAX_INJECT_API => ByEnumName_JAVAX_INJECT_API();
    case JAVAX_JSON_API => ByEnumName_JAVAX_JSON_API();
    case JAVAX_JWS_API => ByEnumName_JAVAX_JWS_API();
    case JAVAX_MAIL_API => ByEnumName_JAVAX_MAIL_API();
    case JAVAX_PERSISTENCE_API => ByEnumName_JAVAX_PERSISTENCE_API();
    case JAVAX_SERVLET_API => ByEnumName_JAVAX_SERVLET_API();
    case JAVAX_SERVLET_JSP => ByEnumName_JAVAX_SERVLET_JSP();
    case JAVAX_SERVLET_JSTL => ByEnumName_JAVAX_SERVLET_JSTL();
    case JAVAX_SOAP_API => ByEnumName_JAVAX_SOAP_API();
    case JAVAX_TRANSACTION_API => ByEnumName_JAVAX_TRANSACTION_API();
    case JAVAX_VALIDATION_API => ByEnumName_JAVAX_VALIDATION_API();
    case JAVAX_WEBSOCKET_API_RULE => ByEnumName_JAVAX_WEBSOCKET_API_RULE();
    case JAVAX_WS_RS_API => ByEnumName_JAVAX_WS_RS_API();
    case JAVAX_XML_BIND_API => ByEnumName_JAVAX_XML_BIND_API();
    case JAVAX_XML_WS_API => ByEnumName_JAVAX_XML_WS_API();
    case LOG4J2_IMPL => ByEnumName_LOG4J2_IMPL();
    case COMMONS_LOGGING_IMPL => ByEnumName_COMMONS_LOGGING_IMPL();
    case SLF4J_VS_JCL => ByEnumName_SLF4J_VS_JCL();
    case SLF4J_VS_LOG4J2_FOR_JCL => ByEnumName_SLF4J_VS_LOG4J2_FOR_JCL();
    case LOG4J2_VS_SLF4J => ByEnumName_LOG4J2_VS_SLF4J();
    case SLF4J_IMPL => ByEnumName_SLF4J_IMPL();
    case SLF4J_VS_LOG4J => ByEnumName_SLF4J_VS_LOG4J();
    case SLF4J_VS_LOG4J2_FOR_LOG4J => ByEnumName_SLF4J_VS_LOG4J2_FOR_LOG4J();
    case SLF4J_VS_JUL => ByEnumName_SLF4J_VS_JUL();
    case SLF4J_VS_LOG4J2_FOR_JUL => ByEnumName_SLF4J_VS_LOG4J2_FOR_JUL();
  }

  /** Distinct constants have distinct identifiers. */
  lemma EnumNamesDistinct(d: CapabilityDefinition, e: CapabilityDefinition)
    requires d != e
    ensures EnumName(d) != EnumName(e)
  {
    ByEnumNameInverse(d);
    ByEnumNameInverse(e);
  }

  /** Every identifier consists of upper-case letters, digits and '_'. */
  lemma EnumNameChars(d: CapabilityDefinition)
    ensures EnumChars(EnumName(d))
  {
    match d
    case AOPALLIANCE => EnumChars_AOPALLIANCE();
    case APACHE_CSV => EnumChars_APACHE_CSV();
    case ASM => EnumChars_ASM();
    case BOUNCYCASTLE_BCMAIL => EnumChars_BOUNCYCASTLE_BCMAIL();
    case BOUNCYCASTLE_BCPG => EnumChars_BOUNCYCASTLE_BCPG();
    case BOUNCYCASTLE_BCPKIX => EnumChars_BOUNCYCASTLE_BCPKIX();
    case BOUNCYCASTLE_BCPROV => EnumChars_BOUNCYCASTLE_BCPROV();
    case BOUNCYCASTLE_BCTLS => EnumChars_BOUNCYCASTLE_BCTLS();
    case BOUNCYCASTLE_BCTSP => EnumChars_BOUNCYCASTLE_BCTSP();
    case BOUNCYCASTLE_BCUTIL => EnumChars_BOUNCYCASTLE_BCUTIL();
    case C3P0 => EnumChars_C3P0();
    case MCHANGE_COMMONS_JAVA => EnumChars_MCHANGE_COMMONS_JAVA();
    case CGLIB => EnumChars_CGLIB();
    case COMMONS_BEANUTILS => EnumChars_COMMONS_BEANUTILS();
    case COMMONS_IO => EnumChars_COMMONS_IO();
    case DOM4J => EnumChars_DOM4J();
    case FINDBUGS_ANNOTATIONS => EnumChars_FINDBUGS_ANNOTATIONS();
    case GOOGLE_COLLECTIONS => EnumChars_GOOGLE_COLLECTIONS();
    case GUAVA => EnumChars_GUAVA();
    case JZY3D_EMUL_GL => EnumChars_JZY3D_EMUL_GL();
    case JZY3D_JGL => EnumChars_JZY3D_JGL();
    case LZ4 => EnumChars_LZ4();
    case LISTENABLEFUTURE => EnumChars_LISTENABLEFUTURE();
    case HAMCREST_LIBRARY => EnumChars_HAMCREST_LIBRARY();
    case HAMCREST_CORE => EnumChars_HAMCREST_CORE();
    case HIKARI_CP => EnumChars_HIKARI_CP();
    case INTELLIJ_ANNOTATIONS => EnumChars_INTELLIJ_ANNOTATIONS();
    case JAVA_ASSIST => EnumChars_JAVA_ASSIST();
    case JCIP_ANNOTATIONS => EnumChars_JCIP_ANNOTATIONS();
    case JNA_PLATFORM => EnumChars_JNA_PLATFORM();
    case JTS_CORE => EnumChars_JTS_CORE();
    case JUNIT => EnumChars_JUNIT();
    case MIGLAYOUT => EnumChars_MIGLAYOUT();
    case ORG_JSON => EnumChars_ORG_JSON();
    case MYSQL_CONNECTOR_JAVA => EnumChars_MYSQL_CONNECTOR_JAVA();
    case POSTGRESQL => EnumChars_POSTGRESQL();
    case STAX_API => EnumChars_STAX_API();
    case VELOCITY => EnumChars_VELOCITY();
    case WOODSTOX_ASL => EnumChars_WOODSTOX_ASL();
    case JAKARTA_ACTIVATION_API => EnumChars_JAKARTA_ACTIVATION_API();
    case JAKARTA_ACTIVATION_IMPL => EnumChars_JAKARTA_ACTIVATION_IMPL();
    case JAKARTA_ANNOTATION_API => EnumChars_JAKARTA_ANNOTATION_API();
    case JAKARTA_JSON_API => EnumChars_JAKARTA_JSON_API();
    case JAKARTA_MAIL_API => EnumChars_JAKARTA_MAIL_API();
    case JAKARTA_SERVLET_API => EnumChars_JAKARTA_SERVLET_API();
    case JAKARTA_WEBSOCKET_API => EnumChars_JAKARTA_WEBSOCKET_API();
    case JAKARTA_WEBSOCKET_CLIENT_API => EnumChars_JAKARTA_WEBSOCKET_CLIENT_API();
    case JAKARTA_WS_RS_API => EnumChars_JAKARTA_WS_RS_API();
    case JAVAX_ACTIVATION_API => EnumChars_JAVAX_ACTIVATION_API();
    case JAVAX_ANNOTATION_API => EnumChars_JAVAX_ANNOTATION_API();
    case JAVAX_EJB_API => EnumChars_JAVAX_EJB_API();
    case JAVAX_EL_API => EnumChars_JAVAX_EL_API();
    case JAVAX_INJECT_API => EnumChars_JAVAX_INJECT_API();
    case JAVAX_JSON_API => EnumChars_JAVAX_JSON_API();
    case JAVAX_JWS_API => EnumChars_JAVAX_JWS_API();
    case JAVAX_MAIL_API => EnumChars_JAVAX_MAIL_API();
    case JAVAX_PERSISTENCE_API => EnumChars_JAVAX_PERSISTENCE_API();
    case JAVAX_SERVLET_API => EnumChars_JAVAX_SERVLET_API();
    case JAVAX_SERVLET_JSP => EnumChars_JAVAX_SERVLET_JSP();
    case JAVAX_SERVLET_JSTL => EnumChars_JAVAX_SERVLET_JSTL();
    case JAVAX_SOAP_API => EnumChars_JAVAX_SOAP_API();
    case JAVAX_TRANSACTION_API => EnumChars_JAVAX_TRANSACTION_API();
    case JAVAX_VALIDATION_API => EnumChars_JAVAX_VALIDATION_API();
    case JAVAX_WEBSOCKET_API_RULE => EnumChars_JAVAX_WEBSOCKET_API_RULE();
    case JAVAX_WS_RS_API => EnumChars_JAVAX_WS_RS_API();
    case JAVAX_XML_BIND_API => EnumChars_JAVAX_XML_BIND_API();
    case JAVAX_XML_WS_API => EnumChars_JAVAX_XML_WS_API();
    case LOG4J2_IMPL => EnumChars_LOG4J2_IMPL();
    case COMMONS_LOGGING_IMPL => EnumChars_COMMONS_LOGGING_IMPL();
    case SLF4J_VS_JCL => EnumChars_SLF4J_VS_JCL();
    case SLF4J_VS_LOG4J2_FOR_JCL => EnumChars_SLF4J_VS_LOG4J2_FOR_JCL();
    case LOG4J2_VS_SLF4J => EnumChars_LOG4J2_VS_SLF4J();
    case SLF4J_IMPL => EnumChars_SLF4J_IMPL();
    case SLF4J_VS_LOG4J => EnumChars_SLF4J_VS_LOG4J();
    case SLF4J_VS_LOG4J2_FOR_LOG4J => EnumChars_SLF4J_VS_LOG4J2_FOR_LOG4J();
    case SLF4J_VS_JUL => EnumChars_SLF4J_VS_JUL();
    case SLF4J_VS_LOG4J2_FOR_JUL => EnumChars_SLF4J_VS_LOG4J2_FOR_JUL();
  }

  /** `values()` lists every constant. */
  lemma Listed_AOPALLIANCE() ensures AOPALLIANCE in AllDefinitions { assert Definitions_0[0] == AOPALLIANCE; }
  lemma Listed_APACHE_CSV() ensures APACHE_CSV in AllDefinitions { assert Definitions_0[1] == APACHE_CSV; }
  lemma Listed_ASM() ensures ASM in AllDefinitions { assert Definitions_0[2] == ASM; }
  lemma Listed_BOUNCYCASTLE_BCMAIL() ensures BOUNCYCASTLE_BCMAIL in AllDefinitions { assert Definitions_0[3] == BOUNCYCASTLE_BCMAIL; }
  lemma Listed_BOUNCYCASTLE_BCPG() ensures BOUNCYCASTLE_BCPG in AllDefinitions { assert Definitions_0[4] == BOUNCYCASTLE_BCPG; }
  lemma Listed_BOUNCYCASTLE_BCPKIX() ensures BOUNCYCASTLE_BCPKIX in AllDefinitions { assert Definitions_0[5] == BOUNCYCASTLE_BCPKIX; }
  lemma Listed_BOUNCYCASTLE_BCPROV() ensures BOUNCYCASTLE_BCPROV in AllDefinitions { assert Definitions_0[6] == BOUNCYCASTLE_BCPROV; }
  lemma Listed_BOUNCYCASTLE_BCTLS() ensures BOUNCYCASTLE_BCTLS in AllDefinitions { assert Definitions_0[7] == BOUNCYCASTLE_BCTLS; }
  lemma Listed_BOUNCYCASTLE_BCTSP() ensures BOUNCYCASTLE_BCTSP in AllDefinitions { assert Definitions_0[8] == BOUNCYCASTLE_BCTSP; }
  lemma Listed_BOUNCYCASTLE_BCUTIL() ensures BOUNCYCASTLE_BCUTIL in AllDefinitions { assert Definitions_0[9] == BOUNCYCASTLE_BCUTIL; }
  lemma Listed_C3P0() ensures C3P0 in AllDefinitions { assert Definitions_0[10] == C3P0; }
  lemma Listed_MCHANGE_COMMONS_JAVA() ensures MCHANGE_COMMONS_JAVA in AllDefinitions { assert Definitions_0[11] == MCHANGE_COMMONS_JAVA; }
  lemma Listed_CGLIB() ensures CGLIB in AllDefinitions { assert Definitions_0[12] == CGLIB; }
  lemma Listed_COMMONS_BEANUTILS() ensures COMMONS_BEANUTILS in AllDefinitions { assert Definitions_0[13] == COMMONS_BEANUTILS; }
  lemma Listed_COMMONS_IO() ensures COMMONS_IO in AllDefinitions { assert Definitions_0[14] == COMMONS_IO; }
  lemma Listed_DOM4J() ensures DOM4J in AllDefinitions { assert Definitions_0[15] == DOM4J; }
  lemma Listed_FINDBUGS_ANNOTATIONS() ensures FINDBUGS_ANNOTATIONS in AllDefinitions { assert Definitions_0[16] == FINDBUGS_ANNOTATIONS; }
  lemma Listed_GOOGLE_COLLECTIONS() ensures GOOGLE_COLLECTIONS in AllDefinitions { assert Definitions_0[17] == GOOGLE_COLLECTIONS; }
  lemma Listed_GUAVA() ensures GUAVA in AllDefinitions { assert Definitions_0[18] == GUAVA; }
  lemma Listed_JZY3D_EMUL_GL() ensures JZY3D_EMUL_GL in AllDefinitions { assert Definitions_0[19] == JZY3D_EMUL_GL; }
  lemma Listed_JZY3D_JGL() ensures JZY3D_JGL in AllDefinitions { assert Definitions_1[0] == JZY3D_JGL; }
  lemma Listed_LZ4() ensures LZ4 in AllDefinitions { assert Definitions_1[1] == LZ4; }
  lemma Listed_LISTENABLEFUTURE() ensures LISTENABLEFUTURE in AllDefinitions { assert Definitions_1[2] == LISTENABLEFUTURE; }
  lemma Listed_HAMCREST_LIBRARY() ensures HAMCREST_LIBRARY in AllDefinitions { assert Definitions_1[3] == HAMCREST_LIBRARY; }
  lemma Listed_HAMCREST_CORE() ensures HAMCREST_CORE in AllDefinitions { assert Definitions_1[4] == HAMCREST_CORE; }
  lemma Listed_HIKARI_CP() ensures HIKARI_CP in AllDefinitions { assert Definitions_1[5] == HIKARI_CP; }
  lemma Listed_INTELLIJ_ANNOTATIONS() ensures INTELLIJ_ANNOTATIONS in AllDefinitions { assert Definitions_1[6] == INTELLIJ_ANNOTATIONS; }
  lemma Listed_JAVA_ASSIST() ensures JAVA_ASSIST in AllDefinitions { assert Definitions_1[7] == JAVA_ASSIST; }
  lemma Listed_JCIP_ANNOTATIONS() ensures JCIP_ANNOTATIONS in AllDefinitions { assert Definitions_1[8] == JCIP_ANNOTATIONS; }
  lemma Listed_JNA_PLATFORM() ensures JNA_PLATFORM in AllDefinitions { assert Definitions_1[9] == JNA_PLATFORM; }
  lemma Listed_JTS_CORE() ensures JTS_CORE in AllDefinitions { assert Definitions_1[10] == JTS_CORE; }
  lemma Listed_JUNIT() ensures JUNIT in AllDefinitions { assert Definitions_1[11] == JUNIT; }
  lemma Listed_MIGLAYOUT() ensures MIGLAYOUT in AllDefinitions { assert Definitions_1[12] == MIGLAYOUT; }
  lemma Listed_ORG_JSON() ensures ORG_JSON in AllDefinitions { assert Definitions_1[13] == ORG_JSON; }
  lemma Listed_MYSQL_CONNECTOR_JAVA() ensures MYSQL_CONNECTOR_JAVA in AllDefinitions { assert Definitions_1[14] == MYSQL_CONNECTOR_JAVA; }
  lemma Listed_POSTGRESQL() ensures POSTGRESQL in AllDefinitions { assert Definitions_1[15] == POSTGRESQL; }
  lemma Listed_STAX_API() ensures STAX_API in AllDefinitions { assert Definitions_1[16] == STAX_API; }
  lemma Listed_VELOCITY() ensures VELOCITY in AllDefinitions { assert Definitions_1[17] == VELOCITY; }
  lemma Listed_WOODSTOX_ASL() ensures WOODSTOX_ASL in AllDefinitions { assert Definitions_1[18] == WOODSTOX_ASL; }
  lemma Listed_JAKARTA_ACTIVATION_API() ensures JAKARTA_ACTIVATION_API in AllDefinitions { assert Definitions_1[19] == JAKARTA_ACTIVATION_API; }
  lemma Listed_JAKARTA_ACTIVATION_IMPL() ensures JAKARTA_ACTIVATION_IMPL in AllDefinitions { assert Definitions_2[0] == JAKARTA_ACTIVATION_IMPL; }
  lemma Listed_JAKARTA_ANNOTATION_API() ensures JAKARTA_ANNOTATION_API in AllDefinitions { assert Definitions_2[1] == JAKARTA_ANNOTATION_API; }
  lemma Listed_JAKARTA_JSON_API() ensures JAKARTA_JSON_API in AllDefinitions { assert Definitions_2[2] == JAKARTA_JSON_API; }
  lemma Listed_JAKARTA_MAIL_API() ensures JAKARTA_MAIL_API in AllDefinitions { assert Definitions_2[3] == JAKARTA_MAIL_API; }
  lemma Listed_JAKARTA_SERVLET_API() ensures JAKARTA_SERVLET_API in AllDefinitions { assert Definitions_2[4] == JAKARTA_SERVLET_API; }
  lemma Listed_JAKARTA_WEBSOCKET_API() ensures JAKARTA_WEBSOCKET_API in AllDefinitions { assert Definitions_2[5] == JAKARTA_WEBSOCKET_API; }
  lemma Listed_JAKARTA_WEBSOCKET_CLIENT_API() ensures JAKARTA_WEBSOCKET_CLIENT_API in AllDefinitions { assert Definitions_2[6] == JAKARTA_WEBSOCKET_CLIENT_API; }
  lemma Listed_JAKARTA_WS_RS_API() ensures JAKARTA_WS_RS_API in AllDefinitions { assert Definitions_2[7] == JAKARTA_WS_RS_API; }
  lemma Listed_JAVAX_ACTIVATION_API() ensures JAVAX_ACTIVATION_API in AllDefinitions { assert Definitions_2[8] == JAVAX_ACTIVATION_API; }
  lemma Listed_JAVAX_ANNOTATION_API() ensures JAVAX_ANNOTATION_API in AllDefinitions { assert Definitions_2[9] == JAVAX_ANNOTATION_API; }
  lemma Listed_JAVAX_EJB_API() ensures JAVAX_EJB_API in AllDefinitions { assert Definitions_2[10] == JAVAX_EJB_API; }
  lemma Listed_JAVAX_EL_API() ensures JAVAX_EL_API in AllDefinitions { assert Definitions_2[11] == JAVAX_EL_API; }
  lemma Listed_JAVAX_INJECT_API() ensures JAVAX_INJECT_API in AllDefinitions { assert Definitions_2[12] == JAVAX_INJECT_API; }
  lemma Listed_JAVAX_JSON_API() ensures JAVAX_JSON_API in AllDefinitions { assert Definitions_2[13] == JAVAX_JSON_API; }
  lemma Listed_JAVAX_JWS_API() ensures JAVAX_JWS_API in AllDefinitions { assert Definitions_2[14] == JAVAX_JWS_API; }
  lemma Listed_JAVAX_MAIL_API() ensures JAVAX_MAIL_API in AllDefinitions { assert Definitions_2[15] == JAVAX_MAIL_API; }
  lemma Listed_JAVAX_PERSISTENCE_API() ensures JAVAX_PERSISTENCE_API in AllDefinitions { assert Definitions_2[16] == JAVAX_PERSISTENCE_API; }
  lemma Listed_JAVAX_SERVLET_API() ensures JAVAX_SERVLET_API in AllDefinitions { assert Definitions_2[17] == JAVAX_SERVLET_API; }
  lemma Listed_JAVAX_SERVLET_JSP() ensures JAVAX_SERVLET_JSP in AllDefinitions { assert Definitions_2[18] == JAVAX_SERVLET_JSP; }
  lemma Listed_JAVAX_SERVLET_JSTL() ensures JAVAX_SERVLET_JSTL in AllDefinitions { assert Definitions_2[19] == JAVAX_SERVLET_JSTL; }
  lemma Listed_JAVAX_SOAP_API() ensures JAVAX_SOAP_API in AllDefinitions { assert Definitions_3[0] == JAVAX_SOAP_API; }
  lemma Listed_JAVAX_TRANSACTION_API() ensures JAVAX_TRANSACTION_API in AllDefinitions { assert Definitions_3[1] == JAVAX_TRANSACTION_API; }
  lemma Listed_JAVAX_VALIDATION_API() ensures JAVAX_VALIDATION_API in AllDefinitions { assert Definitions_3[2] == JAVAX_VALIDATION_API; }
  lemma Listed_JAVAX_WEBSOCKET_API_RULE() ensures JAVAX_WEBSOCKET_API_RULE in AllDefinitions { assert Definitions_3[3] == JAVAX_WEBSOCKET_API_RULE; }
  lemma Listed_JAVAX_WS_RS_API() ensures JAVAX_WS_RS_API in AllDefinitions { assert Definitions_3[4] == JAVAX_WS_RS_API; }
  lemma Listed_JAVAX_XML_BIND_API() ensures JAVAX_XML_BIND_API in AllDefinitions { assert Definitions_3[5] == JAVAX_XML_BIND_API; }
  lemma Listed_JAVAX_XML_WS_API() ensures JAVAX_XML_WS_API in AllDefinitions { assert Definitions_3[6] == JAVAX_XML_WS_API; }
  lemma Listed_LOG4J2_IMPL() ensures LOG4J2_IMPL in AllDefinitions { assert Definitions_3[7] == LOG4J2_IMPL; }
  lemma Listed_COMMONS_LOGGING_IMPL() ensures COMMONS_LOGGING_IMPL in AllDefinitions { assert Definitions_3[8] == COMMONS_LOGGING_IMPL; }
  lemma Listed_SLF4J_VS_JCL() ensures SLF4J_VS_JCL in AllDefinitions { assert Definitions_3[9] == SLF4J_VS_JCL; }
  lemma Listed_SLF4J_VS_LOG4J2_FOR_JCL() ensures SLF4J_VS_LOG4J2_FOR_JCL in AllDefinitions { assert Definitions_3[10] == SLF4J_VS_LOG4J2_FOR_JCL; }
  lemma Listed_LOG4J2_VS_SLF4J() ensures LOG4J2_VS_SLF4J in AllDefinitions { assert Definitions_3[11] == LOG4J2_VS_SLF4J; }
  lemma Listed_SLF4J_IMPL() ensures SLF4J_IMPL in AllDefinitions { assert Definitions_3[12] == SLF4J_IMPL; }
  lemma Listed_SLF4J_VS_LOG4J() ensures SLF4J_VS_LOG4J in AllDefinitions { assert Definitions_3[13] == SLF4J_VS_LOG4J; }
  lemma Listed_SLF4J_VS_LOG4J2_FOR_LOG4J() ensures SLF4J_VS_LOG4J2_FOR_LOG4J in AllDefinitions { assert Definitions_3[14] == SLF4J_VS_LOG4J2_FOR_LOG4J; }
  lemma Listed_SLF4J_VS_JUL() ensures SLF4J_VS_JUL in AllDefinitions { assert Definitions_3[15] == SLF4J_VS_JUL; }
  lemma Listed_SLF4J_VS_LOG4J2_FOR_JUL() ensures SLF4J_VS_LOG4J2_FOR_JUL in AllDefinitions { assert Definitions_3[16] == SLF4J_VS_LOG4J2_FOR_JUL; }

  lemma AllDefinitionsComplete(d: CapabilityDefinition)
    ensures d in AllDefinitions
  {
    match d
    case AOPALLIANCE => Listed_AOPALLIANCE();
    case APACHE_CSV => Listed_APACHE_CSV();
    case ASM => Listed_ASM();
    case BOUNCYCASTLE_BCMAIL => Listed_BOUNCYCASTLE_BCMAIL();
    case BOUNCYCASTLE_BCPG => Listed_BOUNCYCASTLE_BCPG();
    case BOUNCYCASTLE_BCPKIX => Listed_BOUNCYCASTLE_BCPKIX();
    case BOUNCYCASTLE_BCPROV => Listed_BOUNCYCASTLE_BCPROV();
    case BOUNCYCASTLE_BCTLS => Listed_BOUNCYCASTLE_BCTLS();
    case BOUNCYCASTLE_BCTSP => Listed_BOUNCYCASTLE_BCTSP();
    case BOUNCYCASTLE_BCUTIL => Listed_BOUNCYCASTLE_BCUTIL();
    case C3P0 => Listed_C3P0();
    case MCHANGE_COMMONS_JAVA => Listed_MCHANGE_COMMONS_JAVA();
    case CGLIB => Listed_CGLIB();
    case COMMONS_BEANUTILS => Listed_COMMONS_BEANUTILS();
    case COMMONS_IO => Listed_COMMONS_IO();
    case DOM4J => Listed_DOM4J();
    case FINDBUGS_ANNOTATIONS => Listed_FINDBUGS_ANNOTATIONS();
    case GOOGLE_COLLECTIONS => Listed_GOOGLE_COLLECTIONS();
    case GUAVA => Listed_GUAVA();
    case JZY3D_EMUL_GL => Listed_JZY3D_EMUL_GL();
    case JZY3D_JGL => Listed_JZY3D_JGL();
    case LZ4 => Listed_LZ4();
    case LISTENABLEFUTURE => Listed_LISTENABLEFUTURE();
    case HAMCREST_LIBRARY => Listed_HAMCREST_LIBRARY();
    case HAMCREST_CORE => Listed_HAMCREST_CORE();
    case HIKARI_CP => Listed_HIKARI_CP();
    case INTELLIJ_ANNOTATIONS => Listed_INTELLIJ_ANNOTATIONS();
    case JAVA_ASSIST => Listed_JAVA_ASSIST();
    case JCIP_ANNOTATIONS => Listed_JCIP_ANNOTATIONS();
    case JNA_PLATFORM => Listed_JNA_PLATFORM();
    case JTS_CORE => Listed_JTS_CORE();
    case JUNIT => Listed_JUNIT();
    case MIGLAYOUT => Listed_MIGLAYOUT();
    case ORG_JSON => Listed_ORG_JSON();
    case MYSQL_CONNECTOR_JAVA => Listed_MYSQL_CONNECTOR_JAVA();
    case POSTGRESQL => Listed_POSTGRESQL();
    case STAX_API => Listed_STAX_API();
    case VELOCITY => Listed_VELOCITY();
    case WOODSTOX_ASL => Listed_WOODSTOX_ASL();
    case JAKARTA_ACTIVATION_API => Listed_JAKARTA_ACTIVATION_API();
    case JAKARTA_ACTIVATION_IMPL => Listed_JAKARTA_ACTIVATION_IMPL();
    case JAKARTA_ANNOTATION_API => Listed_JAKARTA_ANNOTATION_API();
    case JAKARTA_JSON_API => Listed_JAKARTA_JSON_API();
    case JAKARTA_MAIL_API => Listed_JAKARTA_MAIL_API();
    case JAKARTA_SERVLET_API => Listed_JAKARTA_SERVLET_API();
    case JAKARTA_WEBSOCKET_API => Listed_JAKARTA_WEBSOCKET_API();
    case JAKARTA_WEBSOCKET_CLIENT_API => Listed_JAKARTA_WEBSOCKET_CLIENT_API();
    case JAKARTA_WS_RS_API => Listed_JAKARTA_WS_RS_API();
    case JAVAX_ACTIVATION_API => Listed_JAVAX_ACTIVATION_API();
    case JAVAX_ANNOTATION_API => Listed_JAVAX_ANNOTATION_API();
    case JAVAX_EJB_API => Listed_JAVAX_EJB_API();
    case JAVAX_EL_API => Listed_JAVAX_EL_API();
    case JAVAX_INJECT_API => Listed_JAVAX_INJECT_API();
    case JAVAX_JSON_API => Listed_JAVAX_JSON_API();
    case JAVAX_JWS_API => Listed_JAVAX_JWS_API();
    case JAVAX_MAIL_API => Listed_JAVAX_MAIL_API();
    case JAVAX_PERSISTENCE_API => Listed_JAVAX_PERSISTENCE_API();
    case JAVAX_SERVLET_API => Listed_JAVAX_SERVLET_API();
    case JAVAX_SERVLET_JSP => Listed_JAVAX_SERVLET_JSP();
    case JAVAX_SERVLET_JSTL => Listed_JAVAX_SERVLET_JSTL();
    case JAVAX_SOAP_API => Listed_JAVAX_SOAP_API();
    case JAVAX_TRANSACTION_API => Listed_JAVAX_TRANSACTION_API();
    case JAVAX_VALIDATION_API => Listed_JAVAX_VALIDATION_API();
    case JAVAX_WEBSOCKET_API_RULE => Listed_JAVAX_WEBSOCKET_API_RULE();
    case JAVAX_WS_RS_API => Listed_JAVAX_WS_RS_API();
    case JAVAX_XML_BIND_API => Listed_JAVAX_XML_BIND_API();
    case JAVAX_XML_WS_API => Listed_JAVAX_XML_WS_API();
    case LOG4J2_IMPL => Listed_LOG4J2_IMPL();
    case COMMONS_LOGGING_IMPL => Listed_COMMONS_LOGGING_IMPL();
    case SLF4J_VS_JCL => Listed_SLF4J_VS_JCL();
    case SLF4J_VS_LOG4J2_FOR_JCL => Listed_SLF4J_VS_LOG4J2_FOR_JCL();
    case LOG4J2_VS_SLF4J => Listed_LOG4J2_VS_SLF4J();
    case SLF4J_IMPL => Listed_SLF4J_IMPL();
    case SLF4J_VS_LOG4J => Listed_SLF4J_VS_LOG4J();
    case SLF4J_VS_LOG4J2_FOR_LOG4J => Listed_SLF4J_VS_LOG4J2_FOR_LOG4J();
    case SLF4J_VS_JUL => Listed_SLF4J_VS_JUL();
    case SLF4J_VS_LOG4J2_FOR_JUL => Listed_SLF4J_VS_LOG4J2_FOR_JUL();
  }

  /** The `moduleId`s of logging modules, in the order given. */
  function LoggingCoordinates(ms: seq<L.LoggingModule>): (r: seq<Coord>)
    ensures |r| == |ms|
    ensures forall k :: 0 <= k < |ms| ==> r[k] == L.Coordinate(ms[k])
  {
    if |ms| == 0 then [] else [L.Coordinate(ms[0])] + LoggingCoordinates(ms[1..])
  }

  /** A logging module's coordinate is in the list exactly when the module is. */
  lemma InLoggingCoordinates(m: L.LoggingModule, ms: seq<L.LoggingModule>)
    ensures L.Coordinate(m) in LoggingCoordinates(ms) <==> m in ms
  {
    var r := LoggingCoordinates(ms);
    if L.Coordinate(m) in r {
      var k :| 0 <= k < |r| && r[k] == L.Coordinate(m);
      if ms[k] != m {
        L.IdsDistinct(ms[k], m);
      }
    }
    if m in ms {
      var k :| 0 <= k < |ms| && ms[k] == m;
      assert r[k] == L.Coordinate(m);
    }
  }

  /** The group is "org.gradlex" for every definition but the two Google ones. */
  lemma GroupOf(d: CapabilityDefinition)
    ensures Group(d) == if d == GOOGLE_COLLECTIONS then "com.google.collections"
                        else if d == LISTENABLEFUTURE then "com.google.guava"
                        else DefaultGroup
  {
  }

  /** Only `CapabilityDefinitionRule` itself is named by the constructors that
      omit the rule class, and only the five logging definitions whose
      modules must all carry one version use `FixedVersionCapabilityDefinitionRule`. */
  lemma FixedVersionDefinitions(d: CapabilityDefinition)
    ensures RuleClassOf(d) == FixedVersionCapabilityDefinitionRule <==>
            d in {COMMONS_LOGGING_IMPL, SLF4J_VS_LOG4J2_FOR_JCL, SLF4J_IMPL, SLF4J_VS_LOG4J2_FOR_LOG4J, SLF4J_VS_LOG4J2_FOR_JUL}
  {
  }

  /** Exactly the listenable-future and Hamcrest definitions resolve to their
      first module, and that module is Guava or Hamcrest. */
  lemma FirstModuleDefinitions(d: CapabilityDefinition)
    ensures DefaultStrategy(d) == FIRST_MODULE <==> d in {LISTENABLEFUTURE, HAMCREST_LIBRARY, HAMCREST_CORE}
    ensures d == LISTENABLEFUTURE ==> Modules(d)[0] == Coord("com.google.guava", "guava")
    ensures d in {HAMCREST_LIBRARY, HAMCREST_CORE} ==> Modules(d)[0] == Coord("org.hamcrest", "hamcrest")
  {
  }

  /** A definition has no default strategy exactly when it is a logging
      definition, and a logging definition lists only logging modules. */
  lemma LoggingDefinitionsHaveNoStrategy(d: CapabilityDefinition)
    ensures DefaultStrategy(d) == NONE <==> IsLoggingDefinition(d)
    ensures IsLoggingDefinition(d) ==>
              forall k :: 0 <= k < |Modules(d)| ==> L.Lookup(Modules(d)[k]).Some?
  {
    if IsLoggingDefinition(d) {
      var ms := LoggingModules(d);
      forall k | 0 <= k < |Modules(d)|
        ensures L.Lookup(Modules(d)[k]).Some?
      {
        L.LookupCoordinate(ms[k]);
      }
    }
  }

  /** A logging module is among a logging definition's modules exactly when it
      was declared for it. */
  lemma LoggingModuleIn(d: CapabilityDefinition, m: L.LoggingModule)
    requires IsLoggingDefinition(d)
    ensures L.Coordinate(m) in Modules(d) <==> m in LoggingModules(d)
  {
    InLoggingCoordinates(m, LoggingModules(d));
  }

  /** The group of every definition is colon-free and non-empty. */
  lemma GroupWellFormed(d: CapabilityDefinition)
    ensures ':' !in Group(d) && Group(d) != ""
  {
    GroupOf(d);
    var g := Group(d);
    assert forall i :: 0 <= i < |g| ==> g[i] != ':';
  }

  /** The capability name is the identifier lower-cased with '-' for '_': it
      has the identifier's length and holds no upper-case letter, '_' or ':'. */
  lemma CapabilityNameShape(d: CapabilityDefinition)
    ensures |CapabilityName(d)| == |EnumName(d)|
    ensures forall i :: 0 <= i < |CapabilityName(d)| ==>
              var c := CapabilityName(d)[i]; !IsUpper(c) && c != '_' && c != ':'
  {
    EnumNameChars(d);
    KebabShape(EnumName(d));
  }

  /** `getCapability()` splits back at ':' into the group and the capability name. */
  lemma SplitCapability(d: CapabilityDefinition)
    ensures Split(GetCapability(d), ':') == [Group(d), CapabilityName(d)]
  {
    GroupWellFormed(d);
    CapabilityNameShape(d);
    SplitModuleId(Coord(Group(d), CapabilityName(d)));
  }

  /** Distinct constants have distinct capability ids. */
  lemma CapabilityIdsDistinct(d: CapabilityDefinition, e: CapabilityDefinition)
    ensures GetCapability(d) == GetCapability(e) <==> d == e
  {
    if d != e {
      EnumNamesDistinct(d, e);
      EnumNameChars(d);
      EnumNameChars(e);
      KebabInjective(EnumName(d), EnumName(e));
      GroupWellFormed(d);
      GroupWellFormed(e);
      CapabilityNameShape(d);
      CapabilityNameShape(e);
      ModuleIdInjective(Coord(Group(d), CapabilityName(d)), Coord(Group(e), CapabilityName(e)));
    }
  }
}
