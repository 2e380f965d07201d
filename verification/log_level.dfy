/** The five logging severities, in declaration (ordinal) order. */
module LogLevels {

  datatype LogLevel = TRACE | DEBUG | INFO | WARN | ERROR

  /** `Enum.ordinal()`: the position in the declaration. */
  function Ordinal(l: LogLevel): (n: nat)
    ensures n < 5
  {
    match l
    case TRACE => 0
    case DEBUG => 1
    case INFO => 2
    case WARN => 3
    case ERROR => 4
  }

  /** `level.isEnabled(minimumLevel)`: the level is at least as severe as the minimum. */
  predicate IsEnabled(level: LogLevel, minimumLevel: LogLevel) {
    Ordinal(level) >= Ordinal(minimumLevel)
  }

  /** The declaration order is TRACE < DEBUG < INFO < WARN < ERROR, and distinct
      levels have distinct ordinals. */
  lemma DeclarationOrder()
    ensures Ordinal(TRACE) < Ordinal(DEBUG) < Ordinal(INFO) < Ordinal(WARN) < Ordinal(ERROR)
    ensures forall a: LogLevel, b: LogLevel :: Ordinal(a) == Ordinal(b) ==> a == b
  {
  }

  lemma IsEnabledReflexive(l: LogLevel)
    ensures IsEnabled(l, l)
  {
  }

  lemma IsEnabledTransitive(a: LogLevel, b: LogLevel, c: LogLevel)
    requires IsEnabled(a, b) && IsEnabled(b, c)
    ensures IsEnabled(a, c)
  {
  }

  lemma IsEnabledTotal(a: LogLevel, b: LogLevel)
    ensures IsEnabled(a, b) || IsEnabled(b, a)
  {
  }

  lemma IsEnabledAntisymmetric(a: LogLevel, b: LogLevel)
    requires IsEnabled(a, b) && IsEnabled(b, a)
    ensures a == b
  {
  }

  /** Every level passes a TRACE minimum; only ERROR passes an ERROR minimum. */
  lemma IsEnabledExtremes(l: LogLevel)
    ensures IsEnabled(l, TRACE)
    ensures IsEnabled(l, ERROR) <==> l == ERROR
  {
  }
}
