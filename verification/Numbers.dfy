module Numbers {
  function Min(a: int, b: int): int {
    if a < b then a else b
  }

  function Max(a: int, b: int): int {
    if a < b then b else a
  }

  function Abs(n: int): int {
    if n < 0 then -n else n
  }

  // Division rounded up.
  function CeilDiv(a: int, b: int): int
    requires b > 0
  {
    -((-a) / b)
  }
}
