// Instants as Go's time.Time holds them: a whole second and the nanoseconds past it.
module Times {
  datatype Time = Time(sec: int, nsec: nat) {
    // Seconds since 1970, rounded towards the past also before 1970.
    function Unix(): int {
      sec
    }

    static function FromUnix(s: int): Time {
      Time(s, 0)
    }
  }
}
