// What several parts of the project use.
module Common {
  datatype Option<T> = None | Some(value: T)

  // Which way an event or a field travels.
  datatype Direction = Any | ServerToClient | ClientToServer

  // The name that something has on the wire. An empty alias is none.
  function WireName(name: string, alias: string): string {
    if alias != "" then alias else name
  }
}
