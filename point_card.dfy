// The record every tile is represented by.
module PointCard {

  /** A tile: its unique id, its letter and its point value. */
  datatype Card = Card(id: int, letter: string, value: int)

  /** The key the deck and the selection compare cards by. */
  function CardId(c: Card): int { c.id }
}
