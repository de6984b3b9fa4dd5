/**
 * The `Literal` fields of the pydantic response schemas the scripts pass to the service.
 * Nothing in the scripts checks a response against these: they only say what shape is asked
 * for. Each literal type is a datatype with its label and a decoder of labels.
 */
module Schemas {
  import opened Wrappers

  datatype Answer = Yes | No
  datatype Priority = Core | Preferred
  datatype EvidenceStrength = Strong | Moderate | Weak | NoEvidence
  datatype Verdict = Go | Caution | NoGo
  datatype Recommendation = StrongFit | PotentialFit | NotAMatch

  function AnswerLabel(a: Answer): string
  {
    match a
    case Yes => "Yes"
    case No => "No"
  }

  function ParseAnswer(s: string): Option<Answer>
  {
    if s == "Yes" then Some(Yes) else if s == "No" then Some(No) else None
  }

  function PriorityLabel(p: Priority): string
  {
    match p
    case Core => "Core"
    case Preferred => "Preferred"
  }

  function ParsePriority(s: string): Option<Priority>
  {
    if s == "Core" then Some(Core) else if s == "Preferred" then Some(Preferred) else None
  }

  function StrengthLabel(e: EvidenceStrength): string
  {
    match e
    case Strong => "Strong"
    case Moderate => "Moderate"
    case Weak => "Weak"
    case NoEvidence => "None"
  }

  function ParseStrength(s: string): Option<EvidenceStrength>
  {
    if s == "Strong" then Some(Strong)
    else if s == "Moderate" then Some(Moderate)
    else if s == "Weak" then Some(Weak)
    else if s == "None" then Some(NoEvidence)
    else None
  }

  function VerdictLabel(v: Verdict): string
  {
    match v
    case Go => "GO"
    case Caution => "CAUTION"
    case NoGo => "NO-GO"
  }

  function ParseVerdict(s: string): Option<Verdict>
  {
    if s == "GO" then Some(Go) else if s == "CAUTION" then Some(Caution) else if s == "NO-GO" then Some(NoGo) else None
  }

  function RecommendationLabel(r: Recommendation): string
  {
    match r
    case StrongFit => "Strong Fit"
    case PotentialFit => "Potential Fit"
    case NotAMatch => "Not a Match"
  }

  function ParseRecommendation(s: string): Option<Recommendation>
  {
    if s == "Strong Fit" then Some(StrongFit)
    else if s == "Potential Fit" then Some(PotentialFit)
    else if s == "Not a Match" then Some(NotAMatch)
    else None
  }

  /** Every literal type admits exactly its labels: decoding a label gives its value back, and
      only labels decode. */
  lemma LabelsRoundTrip()
    ensures forall a: Answer :: ParseAnswer(AnswerLabel(a)) == Some(a)
    ensures forall s, a :: ParseAnswer(s) == Some(a) ==> s == AnswerLabel(a)
    ensures forall p: Priority :: ParsePriority(PriorityLabel(p)) == Some(p)
    ensures forall s, p :: ParsePriority(s) == Some(p) ==> s == PriorityLabel(p)
    ensures forall e: EvidenceStrength :: ParseStrength(StrengthLabel(e)) == Some(e)
    ensures forall s, e :: ParseStrength(s) == Some(e) ==> s == StrengthLabel(e)
    ensures forall v: Verdict :: ParseVerdict(VerdictLabel(v)) == Some(v)
    ensures forall s, v :: ParseVerdict(s) == Some(v) ==> s == VerdictLabel(v)
    ensures forall r: Recommendation :: ParseRecommendation(RecommendationLabel(r)) == Some(r)
    ensures forall s, r :: ParseRecommendation(s) == Some(r) ==> s == RecommendationLabel(r)
  {
  }
}
