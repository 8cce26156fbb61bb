/** `StatComponent`: one real-valued statistic of a game object. */
module Stats {
  import opened Entities

  class StatComponent {
    const gameObject: GameObject
    var value: real

    /** The constructor stores the initial value. */
    constructor (gameObject: GameObject, value: real)
      ensures this.gameObject == gameObject && this.value == value
    {
      this.gameObject := gameObject;
      this.value := value;
    }

    /** setValue: the value becomes v, whatever it was, so setting the
        same value twice is setting it once. */
    method SetValue(v: real)
      modifies this
      ensures value == v
    {
      value := v;
    }

    /** changeValue: the value moves by delta; a zero delta keeps it. */
    method ChangeValue(delta: real)
      modifies this
      ensures value - old(value) == delta
      ensures delta == 0.0 ==> value == old(value)
    {
      value := value + delta;
    }
  }
}
