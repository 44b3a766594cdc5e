/** Socket handles as the source declares them (`typedef int SOCKET`). */
module Sockets {

  type Socket = int

  /** The value the source uses for "no socket". */
  const InvalidSocket: Socket := -1
}
