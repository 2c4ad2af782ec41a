/** Worked examples of single ticks on the 20 x 20 board. */
module Scenarios {
  import opened Grid
  import opened SnakeGame

  /** A four-segment snake heading right moves one cell and drops its tail. */
  lemma FourSegmentExample(u: real, v: real)
    requires 0.0 <= u < 1.0 && 0.0 <= v < 1.0
    ensures var s := GameState([Cell(10, 10), Cell(9, 10), Cell(8, 10), Cell(7, 10)],
                               Right, Cell(3, 3), 3, false);
            Tick(s, u, v).body == [Cell(11, 10), Cell(10, 10), Cell(9, 10), Cell(8, 10)]
            && !Tick(s, u, v).gameOver
  {
  }

  /** Leaving the board on the right ends the game; there is no wrap-around. */
  lemma WallExample(u: real, v: real)
    requires 0.0 <= u < 1.0 && 0.0 <= v < 1.0
    ensures var s := GameState([Cell(19, 5)], Right, Cell(3, 3), 0, false);
            Tick(s, u, v).body == [Cell(20, 5)] && Tick(s, u, v).gameOver
  {
  }
}
