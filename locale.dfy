/**
 * The three supported locales and their BCP 47 style tags. The enum and its
 * two conversions are declared identically in the shared crate and in the
 * single-crate app; this module is that one definition.
 */
module Locales {

  datatype Locale = En | ZhHans | ZhHant

  /** The canonical tag of a locale. */
  function AsStr(l: Locale): (s: string)
    ensures FromStr(s) == l
    ensures s in {"en", "zh-Hans", "zh-Hant"}
  {
    match l
    case En => "en"
    case ZhHans => "zh-Hans"
    case ZhHant => "zh-Hant"
  }

  /** Reads a tag, accepting the aliases "zh", "zh-CN" and "zh-TW"; anything else is English. */
  function FromStr(s: string): (l: Locale)
    ensures l != En <==> s in {"zh-Hans", "zh-CN", "zh", "zh-Hant", "zh-TW"}
  {
    if s == "zh-Hans" || s == "zh-CN" || s == "zh" then ZhHans
    else if s == "zh-Hant" || s == "zh-TW" then ZhHant
    else En
  }

  lemma FromStrAsStr(l: Locale)
    ensures FromStr(AsStr(l)) == l
  {
  }

  /** Exactly which strings each locale is read from. */
  lemma FromStrAliases(s: string)
    ensures FromStr(s) == ZhHans <==> s in {"zh-Hans", "zh-CN", "zh"}
    ensures FromStr(s) == ZhHant <==> s in {"zh-Hant", "zh-TW"}
    ensures FromStr(s) == En <==> s !in {"zh-Hans", "zh-CN", "zh", "zh-Hant", "zh-TW"}
  {
  }

  lemma AsStrInjective(a: Locale, b: Locale)
    requires AsStr(a) == AsStr(b)
    ensures a == b
  {
    FromStrAsStr(a);
    FromStrAsStr(b);
  }
}
