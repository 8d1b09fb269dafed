/** The chat message shared by the provider layer, the session and the stored
    history: a role ("system", "user" or "assistant") and its text. */
module Chat {

  datatype Message = Message(role: string, content: string)
}
