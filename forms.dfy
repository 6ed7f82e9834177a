/** The `DataRequired` validators of `LocationForm`, which `update_location`
    checks (`validate_on_submit`) before touching the database. */
module Forms {

  /** The characters Python's `str.strip()` removes (`str.isspace`). */
  predicate IsSpace(ch: char)
  {
    || ('\t' <= ch <= '\r')
    || ('\U{1C}' <= ch <= ' ')
    || ch == '\U{85}' || ch == '\U{A0}' || ch == '\U{1680}'
    || ('\U{2000}' <= ch <= '\U{200A}')
    || ch == '\U{2028}' || ch == '\U{2029}' || ch == '\U{202F}' || ch == '\U{205F}' || ch == '\U{3000}'
  }

  /** A string that `DataRequired` refuses: nothing left after stripping. */
  predicate Blank(s: string)
  {
    forall i | 0 <= i < |s| :: IsSpace(s[i])
  }

  /** `DataRequired` on the location text and on the two integer fields: an
      integer field fails when its value is 0; negative values pass. */
  predicate LocationFormValid(location: string, miles: int, limit: int)
  {
    !Blank(location) && miles != 0 && limit != 0
  }
}
