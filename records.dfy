/**
 * Vocabulary shared by every screen of the poll app: optional values and the
 * string-keyed participant records that are entered, imported, stored and
 * looked up again at verification time.
 */
module Records {

  /** Swift's `T?`. */
  datatype Option<+T> = None | Some(value: T) {
    /** `x ?? default` */
    function GetOr(default: T): T {
      match this
      case Some(v) => v
      case None => default
    }
  }

  /** A participant as the app keeps it: `[String: String]`, field name to text. */
  type Record = map<string, string>

  /** The field names the app writes and reads (they are Korean in the app). */
  const NameKey: string := "이름"
  const PhoneKey: string := "전화번호"
  const AffiliationKey: string := "소속"
  const StudentIdKey: string := "학번"

  /** `record[key] ?? ""` */
  function FieldOrEmpty(r: Record, key: string): string {
    if key in r then r[key] else ""
  }
}
