/** Option and Result values used across the model in place of JavaScript's
    `undefined`/`null` and thrown errors. */
module Wrappers {

  datatype Option<+T> = None | Some(value: T)

  /** The messages the services and middleware put into errors and
      replies; Text gives the exact string. */
  datatype Message =
    | EmailTaken | BadCredentials | NotVerified
    | RefreshInvalid | RefreshReused | RefreshRejected | ResetRejected
    | BalitaNotFound | VillageNotFound | PoskoNotFound | BalitaDeleted
    | AccessTokenRequired | InvalidToken | NotAuthenticated | InsufficientPermissions

  function Text(m: Message): (r: string) {
    match m
    case EmailTaken => "Email sudah terdaftar"
    case BadCredentials => "Email atau password salah"
    case NotVerified => "Akun belum diverifikasi. Harap tunggu persetujuan admin."
    case RefreshInvalid => "Refresh token tidak valid"
    case RefreshReused => "Terdeteksi penggunaan ulang refresh token. Silakan login kembali."
    case RefreshRejected => "Refresh token tidak valid atau kadaluarsa"
    case ResetRejected => "Token tidak valid atau sudah kadaluarsa"
    case BalitaNotFound => "Data balita tidak ditemukan"
    case VillageNotFound => "Desa tidak ditemukan"
    case PoskoNotFound => "Posko tidak ditemukan"
    case BalitaDeleted => "Data balita berhasil dihapus"
    case AccessTokenRequired => "Access token required"
    case InvalidToken => "Invalid or expired token"
    case NotAuthenticated => "Not authenticated"
    case InsufficientPermissions => "Insufficient permissions"
  }

  /** Prisma failures the model can raise. */
  datatype DbFailure = RecordNotFound | UniqueViolation | ForeignKeyViolation

  /** An error the services throw; `status` is the HTTP status code of the
      ApiError subclass: 400 BadRequest, 401 Unauthorized, 403 Forbidden,
      404 NotFound, 409 Conflict. */
  datatype Error =
    | ApiError(status: int, message: Message)
    /** jsonwebtoken's JsonWebTokenError (and its TokenExpiredError subclass) */
    | JwtError
    | DbError(failure: DbFailure)

  datatype Result<+T> = Ok(value: T) | Err(error: Error)

  /** JavaScript truthiness of an optional string: `undefined` and `""` are falsy. */
  predicate TruthyString(s: Option<string>) {
    s.Some? && s.value != ""
  }

  /** JavaScript truthiness of an optional number: `undefined`, `null` and `0` are falsy. */
  predicate TruthyNumber(n: Option<real>) {
    n.Some? && n.value != 0.0
  }

  /** JavaScript truthiness of an optional integer id. */
  predicate TruthyInt(n: Option<int>) {
    n.Some? && n.value != 0
  }
}
