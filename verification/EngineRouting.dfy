/** Which engine judges a message, and what the engine concludes. */
module EngineRouting {
  import opened Options
  import opened Engines
  import opened PythonAst
  import FinanceGuard
  import LogicGuard
  import CodeGuard

  datatype PayloadType = FINANCIAL_TRANSACTION | LOGIC_ASSERTION | CODE_EXECUTION | DATA_QUERY | GENERAL

  function TypeValue(t: PayloadType): string {
    match t
    case FINANCIAL_TRANSACTION => "financial_transaction"
    case LOGIC_ASSERTION => "logic_assertion"
    case CODE_EXECUTION => "code_execution"
    case DATA_QUERY => "data_query"
    case GENERAL => "general"
  }

  datatype Parsed = Tree(nodes: seq<Node>) | NotPython | ParserFails

  /** The payload's code field: absent or empty, not text, or text of so many
      bytes. `suspicious` says whether a text pattern matches it. */
  datatype Code = NoCode | NotText | Text(bytes: nat, parsed: Parsed, suspicious: bool)

  /** A message, with its payload as each reader sees it. `size` and `hash` are
      `None` where the payload cannot be serialized. */
  datatype Message = Message(
    sender: string,
    receiver: string,
    payloadType: PayloadType,
    size: Option<nat>,
    hash: Option<string>,
    finance: FinanceGuard.Payload,
    assertions: Option<seq<LogicGuard.Assertion>>,
    code: Code)

  type Arithmetic = s: FinanceGuard.Setting | s.Valid() witness FinanceGuard.Setting(28, 28)

  datatype Config = Config(
    maxPayloadSize: int,
    enableFinancial: bool,
    enableLogic: bool,
    enableCode: bool,
    arithmetic: Arithmetic,
    unicode: LogicGuard.Unicode)

  const MAX_CODE_BYTES: nat := 256 * 1024

  ghost predicate HasThreat(nodes: seq<Node>) {
    exists t :: CodeGuard.Reported(CodeGuard.Guarded(nodes), t)
  }

  /** `None` means the engine raises. */
  ghost function JudgeCode(c: Code): Option<EngineResult> {
    match c
    case NoCode => Some(HeuristicPass)
    case NotText => Some(Unverifiable)
    case Text(bytes, parsed, suspicious) =>
      if bytes > MAX_CODE_BYTES then Some(NotVerified)
      else match parsed
        case NotPython => Some(NotVerified)
        case ParserFails => None
        case Tree(nodes) => Some(if HasThreat(nodes) || suspicious then NotVerified else HeuristicPass)
  }

  ghost function Route(cfg: Config, m: Message): Option<EngineResult> {
    if m.payloadType.FINANCIAL_TRANSACTION? && cfg.enableFinancial then FinanceGuard.Judge(cfg.arithmetic, m.finance)
    else if m.payloadType.LOGIC_ASSERTION? && cfg.enableLogic then Some(LogicGuard.Judge(cfg.unicode, m.assertions))
    else if m.payloadType.CODE_EXECUTION? && cfg.enableCode then JudgeCode(m.code)
    else Some(Unverifiable)
  }

  method VerifyCode(c: Code) returns (result: Option<EngineResult>)
    ensures result == JudgeCode(c)
  {
    match c {
      case NoCode => return Some(HeuristicPass);
      case NotText => return Some(Unverifiable);
      case Text(bytes, parsed, suspicious) =>
        if bytes > MAX_CODE_BYTES {
          return Some(NotVerified);
        }
        match parsed {
          case NotPython => return Some(NotVerified);
          case ParserFails => return None;
          case Tree(nodes) =>
            var threats := CodeGuard.ScanAstThreats(CodeGuard.Guarded(nodes));
            if threats != {} {
              var t :| t in threats;
              assert CodeGuard.Reported(CodeGuard.Guarded(nodes), t);
              return Some(NotVerified);
            }
            if suspicious {
              return Some(NotVerified);
            }
            return Some(HeuristicPass);
        }
    }
  }

  method RouteToEngine(cfg: Config, m: Message) returns (result: Option<EngineResult>)
    ensures result == Route(cfg, m)
  {
    if m.payloadType.FINANCIAL_TRANSACTION? && cfg.enableFinancial {
      result := FinanceGuard.VerifyFinancial(cfg.arithmetic, m.finance);
      return;
    }
    if m.payloadType.LOGIC_ASSERTION? && cfg.enableLogic {
      var judged, _ := LogicGuard.VerifyLogic(cfg.unicode, m.assertions);
      return Some(judged);
    }
    if m.payloadType.CODE_EXECUTION? && cfg.enableCode {
      result := VerifyCode(m.code);
      return;
    }
    return Some(Unverifiable);
  }

  /** No heuristic ever verifies: only the finance guard does, on a message of its own type. */
  lemma OnlyFinanceVerifies(cfg: Config, m: Message)
    ensures Route(cfg, m) == Some(EngineResult.Verified) <==>
            && m.payloadType.FINANCIAL_TRANSACTION?
            && cfg.enableFinancial
            && FinanceGuard.Judge(cfg.arithmetic, m.finance) == Some(EngineResult.Verified)
  {
  }

  /** The type and its engine's switch. */
  predicate HasEngine(cfg: Config, t: PayloadType) {
    match t
    case FINANCIAL_TRANSACTION => cfg.enableFinancial
    case LOGIC_ASSERTION => cfg.enableLogic
    case CODE_EXECUTION => cfg.enableCode
    case DATA_QUERY => false
    case GENERAL => false
  }

  /** Without an engine every message is unverifiable; what an engine concludes depends on its own part of the
      payload alone. */
  lemma RoutedExactly(cfg: Config, m: Message, n: Message)
    ensures !HasEngine(cfg, m.payloadType) ==> Route(cfg, m) == Some(Unverifiable)
    ensures && m.payloadType == n.payloadType
            && (m.payloadType.FINANCIAL_TRANSACTION? ==> m.finance == n.finance)
            && (m.payloadType.LOGIC_ASSERTION? ==> m.assertions == n.assertions)
            && (m.payloadType.CODE_EXECUTION? ==> m.code == n.code)
            ==> Route(cfg, m) == Route(cfg, n)
  {
  }

  /** Scopes name payload types by their values, which tell them apart. */
  lemma TypesAreTold(t: PayloadType, other: PayloadType)
    ensures TypeValue(t) == TypeValue(other) <==> t == other
  {
  }
}
