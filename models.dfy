/** The request record of the password-reset endpoint (go-backend/models/models.go). */
module Models {

  /** The JSON body of PUT /update-password, one field per JSON key. */
  datatype UpdatePasswordRequest = UpdatePasswordRequest(
    username: string,     // "username"
    email: string,        // "emailID"
    oldPassword: string,  // "oldPassword"
    newPassword: string,  // "newPassword"
    serverIP: string,     // "serverIP"
    database: string      // "database"
  )
}
