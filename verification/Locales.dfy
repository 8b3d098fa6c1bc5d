/** The interface locales. */
module Locales {
  datatype UiLocale =
    | English
    | SimplifiedChinese
    | TraditionalChinese
    | Spanish
    | French
    | German
    | Japanese
    | Korean
    | BrazilianPortuguese
    | Russian
    | Arabic
    | Hindi
    | PseudoAccentedEnglish
    | PseudoRtlArabic
}
