/** Terminals and the connection status that the database keeps for each. */
module Terminals {
  type Serial = string

  datatype Connection = Offline | Authenticating | Online | Faulted
}
