/** The controlled names and values of dashboard/query/validate.go. */
module QueryNames {
  import opened QueryTypes

  predicate IsLetter(c: char) { 'a' <= c <= 'z' || 'A' <= c <= 'Z' }

  predicate IsDigit(c: char) { '0' <= c <= '9' }

  // ^[A-Za-z_:][A-Za-z0-9_:]{0,199}$
  predicate ValidMetricName(s: string)
  {
    && 1 <= |s| <= 200 && !IsDigit(s[0])
    && forall i :: 0 <= i < |s| ==> IsLetter(s[i]) || IsDigit(s[i]) || s[i] == '_' || s[i] == ':'
  }

  // ^[A-Za-z0-9_.-]{1,128}$
  predicate ValidServiceValue(s: string)
  {
    && 1 <= |s| <= 128
    && forall i :: 0 <= i < |s| ==> IsLetter(s[i]) || IsDigit(s[i]) || s[i] == '_' || s[i] == '.' || s[i] == '-'
  }

  // ^[A-Za-z0-9_-]{1,128}$
  predicate ValidOperationValue(s: string)
  {
    && 1 <= |s| <= 128
    && forall i :: 0 <= i < |s| ==> IsLetter(s[i]) || IsDigit(s[i]) || s[i] == '_' || s[i] == '-'
  }

  // ^[A-Za-z0-9_. /-]{1,128}$
  predicate ValidSpanName(s: string)
  {
    && 1 <= |s| <= 128
    && forall i :: 0 <= i < |s| ==> IsLetter(s[i]) || IsDigit(s[i]) || s[i] in "_. /-"
  }

  predicate InVocabulary(name: string)
  {
    name == "service" || name == "operation" || name == "status" || name == "le"
  }

  // A label of the vocabulary with the fixed bucket matcher on `le`, the one allowed pattern, or
  // a controlled value. The validator does not look further at the operator.
  predicate AllowedMatcher(m: LabelMatcher)
  {
    && InVocabulary(m.name)
    && (if m.name == "le" then m.op.MatchNotEqual? && m.value == BucketBoundary
        else if m.op.MatchRegex? then m.value == ErrorStatusPattern
        else ValidServiceValue(m.value))
  }

  predicate ControlledMatcher(m: LabelMatcher)
  {
    AllowedMatcher(m) && !m.op.OtherOp?
  }

  predicate ControlledSelector(s: Selector)
  {
    ValidMetricName(s.metricName) && forall m <- s.matchers :: ControlledMatcher(m)
  }
}
