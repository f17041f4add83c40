/** The requests a client sends to the server, by message type. */
module Protocol {
  import opened Wrappers

  datatype Request =
    | LoginRequest(username: string, password: string)
    | CreateUserRequest(username: string, password: string, name: string)
    | SelectCharacterRequest(name: string)
      /** The username the client remembered; null if it never set one. */
    | CreateCharacterRequest(name: string, classType: string, owner: Option<string>)
    | CommandRequest(line: string)
    | QuitRequest
}
