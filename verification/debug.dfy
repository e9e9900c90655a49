/** The validation-layer message callback: naming a message's severity and
    type, choosing the output stream, and the severities and types the
    messenger subscribes to. */
module Debug {

  /** `VkDebugUtilsMessageSeverityFlagBitsEXT`. */
  const SeverityVerbose: bv32 := 0x1
  const SeverityInfo: bv32 := 0x10
  const SeverityWarning: bv32 := 0x100
  const SeverityError: bv32 := 0x1000
  const SeverityMaxEnum: bv32 := 0x7FFF_FFFF

  /** `VkDebugUtilsMessageTypeFlagBitsEXT`. */
  const TypeGeneral: bv32 := 0x1
  const TypeValidation: bv32 := 0x2
  const TypePerformance: bv32 := 0x4
  const TypeDeviceAddressBinding: bv32 := 0x8

  const KnownSeverities: set<bv32> := {SeverityVerbose, SeverityInfo, SeverityWarning, SeverityError, SeverityMaxEnum}
  const KnownTypes: set<bv32> := {TypeGeneral, TypeValidation, TypePerformance, TypeDeviceAddressBinding}

  /** `stringify_message_severity`. */
  function SeverityName(severity: bv32): (r: string)
    ensures r == "[unk]" <==> severity !in KnownSeverities
  {
    if severity == SeverityVerbose then "[verbose]"
    else if severity == SeverityInfo then "[inf]"
    else if severity == SeverityWarning then "[warn]"
    else if severity == SeverityError then "[err]"
    else if severity == SeverityMaxEnum then "[fatal]"
    else "[unk]"
  }

  /** `stringify_message_type`: a message type is a flag mask, and only a
      mask with exactly one of the four bits has a name. */
  function TypeName(messageType: bv32): (r: string)
    ensures r == "unknown type" <==> messageType !in KnownTypes
  {
    if messageType == TypeGeneral then "general"
    else if messageType == TypePerformance then "performance"
    else if messageType == TypeValidation then "validation"
    else if messageType == TypeDeviceAddressBinding then "device address binding"
    else "unknown type"
  }

  datatype Stream = StdErr | StdOut | StdLog

  /** The stream a message goes to: warnings, errors and the max-enum
      severity to `std::cerr` whatever the type; otherwise general and
      device-address messages to `std::cout`, the rest to `std::clog`. */
  function Route(severity: bv32, messageType: bv32): (r: Stream)
    ensures r == StdErr <==> severity in {SeverityWarning, SeverityError, SeverityMaxEnum}
    ensures r == StdOut <==>
      severity !in {SeverityWarning, SeverityError, SeverityMaxEnum} && messageType in {TypeGeneral, TypeDeviceAddressBinding}
  {
    if severity == SeverityWarning || severity == SeverityError || severity == SeverityMaxEnum then StdErr
    else if messageType == TypeGeneral || messageType == TypeDeviceAddressBinding then StdOut
    else StdLog
  }

  /** What `debug_callback` does with one message: the line it writes, the
      stream it writes it to, and the value it returns (`VK_FALSE`, so the
      call that raised the message is never aborted). */
  datatype Delivery = Delivery(stream: Stream, line: string, abort: bool)

  function MessageLine(severity: bv32, messageType: bv32, message: string): string {
    "severity=\"" + SeverityName(severity) + "\" subject=\"" + TypeName(messageType) + "\" - " + message + "\n"
  }

  /** `debug_callback`. */
  function DebugCallback(severity: bv32, messageType: bv32, message: string): (d: Delivery)
    ensures !d.abort
    ensures d.stream == Route(severity, messageType)
    ensures d.line == MessageLine(severity, messageType, message)
  {
    Delivery(Route(severity, messageType), MessageLine(severity, messageType, message), false)
  }

  /** `get_debug_messenger_create_info`: the subscribed masks. */
  const MessengerSeverities: bv32 := SeverityVerbose | SeverityInfo | SeverityWarning | SeverityError
  const MessengerTypes: bv32 := TypeGeneral | TypeValidation | TypePerformance | TypeDeviceAddressBinding

  /** The severity levels the messenger delivers. */
  predicate Subscribed(severity: bv32)
    ensures Subscribed(severity) <==> severity in {SeverityVerbose, SeverityInfo, SeverityWarning, SeverityError}
    ensures Subscribed(severity) ==> SeverityName(severity) != "[fatal]" && SeverityName(severity) != "[unk]"
  {
    assert SeverityMaxEnum & MessengerSeverities != SeverityMaxEnum;
    severity in KnownSeverities && severity & MessengerSeverities == severity
  }

  // ---------------------------------------------------------------------------
  // Proofs

  /** Distinct known severities get distinct names. */
  lemma SeverityNamesDistinct(a: bv32, b: bv32)
    requires a in KnownSeverities && b in KnownSeverities && a != b
    ensures SeverityName(a) != SeverityName(b)
  {
    assert |"[verbose]"| == 9 && |"[inf]"| == 5 && |"[warn]"| == 6 && |"[err]"| == 5 && |"[fatal]"| == 7;
    assert "[inf]"[1] != "[err]"[1];
  }

  /** Distinct known types get distinct names. */
  lemma TypeNamesDistinct(a: bv32, b: bv32)
    requires a in KnownTypes && b in KnownTypes && a != b
    ensures TypeName(a) != TypeName(b)
  {
    assert |"general"| == 7 && |"performance"| == 11 && |"validation"| == 10 && |"device address binding"| == 22;
  }

  /** The messenger subscribes to the four real severities and not to the
      max-enum marker, so "[fatal]" and "[unk]" never appear for a
      subscribed severity; every single type bit is subscribed. */
  lemma SubscriptionsNamed(severity: bv32)
    ensures Subscribed(severity) <==> severity in {SeverityVerbose, SeverityInfo, SeverityWarning, SeverityError}
    ensures Subscribed(severity) ==> SeverityName(severity) != "[fatal]" && SeverityName(severity) != "[unk]"
    ensures forall t :: t in KnownTypes ==> t & MessengerTypes == t
  {
    assert SeverityMaxEnum & MessengerSeverities != SeverityMaxEnum;
  }

  /** A message carrying two type bits at once has no name and, unless it
      is a warning or worse, goes to `std::clog`. */
  lemma CombinedTypesUnnamed(severity: bv32)
    requires severity !in {SeverityWarning, SeverityError, SeverityMaxEnum}
    ensures TypeName(TypeValidation | TypePerformance) == "unknown type"
    ensures Route(severity, TypeValidation | TypePerformance) == StdLog
  {
  }
}
