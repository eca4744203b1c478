/** The user roles and the JWT payload carried by an authenticated request. */
module Types {

  datatype Role = Admin | Relawan | Stakeholder

  /** JwtPayload: who the token was issued to. */
  datatype Payload = Payload(userId: string, email: string, role: Role)
}
