/**
 * The `Player(...)` constructor of the repository reads a player database
 * from disk; that file is not part of this model. Here a player object is an
 * opaque wrapper of whatever it was constructed from (an id or a database
 * entry), so that lists of players can still be compared element by element.
 */
module Players {

  datatype Player<T> = Player(source: T)
}
