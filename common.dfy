/** Values shared by every module: optional values, document ids, JavaScript
    truthiness of an optional string, and the process environment the
    backend reads its defaults from. */
module Common {

  datatype Option<+T> = None | Some(value: T)

  /** A document's ObjectId. */
  type Id = nat

  /** A string value is truthy in JavaScript when it is present and non-empty. */
  predicate Truthy(v: Option<string>) {
    v.Some? && v.value != ""
  }

  /** `v || fallback` for an optional string. */
  function Or(v: Option<string>, fallback: string): (r: string)
    ensures Truthy(v) ==> r == v.value
    ensures !Truthy(v) ==> r == fallback
  {
    if Truthy(v) then v.value else fallback
  }

  /** The environment variables the modelled code consults. */
  datatype Env = Env(
    allowedOrigins: Option<string>,         // ALLOWED_ORIGINS
    defaultThemePrimary: Option<string>,    // DEFAULT_THEME_PRIMARY
    defaultThemeBackground: Option<string>, // DEFAULT_THEME_BACKGROUND
    defaultThemeText: Option<string>)       // DEFAULT_THEME_TEXT
}
