/**
 * The key codes of System.ConsoleKey that the controllers, animators and tutorials
 * look at. A key is its integer code, so two keys are equal exactly when their codes are.
 */
module ConsoleKeys {
  type ConsoleKey = int

  const Spacebar: ConsoleKey := 32
  const LeftArrow: ConsoleKey := 37
  const UpArrow: ConsoleKey := 38
  const RightArrow: ConsoleKey := 39
  const DownArrow: ConsoleKey := 40
  const A: ConsoleKey := 65
  const D: ConsoleKey := 68
  const K: ConsoleKey := 75
  const L: ConsoleKey := 76
  const N: ConsoleKey := 78
  const P: ConsoleKey := 80
  const S: ConsoleKey := 83
  const W: ConsoleKey := 87
  const Y: ConsoleKey := 89
  const Z: ConsoleKey := 90
}
