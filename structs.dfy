/**
  The `Employee` and `Staff` structs of the structs lesson: a guarded
  holiday decrement, and a computed property whose setter adjusts the
  accrued days so that the getter reads back what was set.
 */
module Structs {

  /** The holidays an `Employee` gets when none are given. */
  const DefaultHolidays: int := 28

  class Employee {
    const name: string
    var holidaysRemaining: int

    /** The memberwise initializer `Employee(name:holidaysRemaining:)`. */
    constructor (name: string, holidaysRemaining: int)
      ensures this.name == name && this.holidaysRemaining == holidaysRemaining
    {
      this.name := name;
      this.holidaysRemaining := holidaysRemaining;
    }

    /** `Employee(name:)`, which takes the default of 28 days. */
    constructor WithDefaultHolidays(name: string)
      ensures this.name == name && holidaysRemaining == DefaultHolidays
    {
      this.name := name;
      holidaysRemaining := DefaultHolidays;
    }

    /**
      `takeHolidays(days:)`: the request is granted only when strictly fewer
      days are asked for than remain, so at least one day is always left;
      a refused request changes nothing. `granted` is the branch the source
      reports by printing.
     */
    method TakeHolidays(days: int) returns (granted: bool)
      modifies this
      ensures granted <==> old(holidaysRemaining) > days
      ensures granted ==> holidaysRemaining == old(holidaysRemaining) - days && holidaysRemaining >= 1
      ensures !granted ==> holidaysRemaining == old(holidaysRemaining)
    {
      if holidaysRemaining > days {
        holidaysRemaining := holidaysRemaining - days;
        granted := true;
      } else {
        granted := false;
      }
    }
  }

  /** The worked example: 25 - 8, 14 - 5, and the default 28 - 7. */
  method HolidayExamples() returns (lucasLeft: int, rodriguezLeft: int, arteagaLeft: int)
    ensures lucasLeft == 17 && rodriguezLeft == 9 && arteagaLeft == 21
  {
    var lucas := new Employee("Lucas Rodriguez", 25);
    var rodriguez := new Employee("Andre Rodriguez", 14);
    var _ := lucas.TakeHolidays(8);
    var _ := rodriguez.TakeHolidays(5);
    var arteaga := new Employee.WithDefaultHolidays("Graciela Arteaga");
    var _ := arteaga.TakeHolidays(7);
    lucasLeft, rodriguezLeft, arteagaLeft := lucas.holidaysRemaining, rodriguez.holidaysRemaining, arteaga.holidaysRemaining;
  }

  /** The accrued days a `Staff` member gets when none are given. */
  const DefaultHolidaysAccrued: int := 14

  class Staff {
    const name: string
    var holidaysAccrued: int
    var holidaysTaken: int

    /** The memberwise initializer `Staff(name:holidaysAccrued:)`; no days taken yet. */
    constructor (name: string, holidaysAccrued: int)
      ensures this.name == name && this.holidaysAccrued == holidaysAccrued && holidaysTaken == 0
    {
      this.name := name;
      this.holidaysAccrued := holidaysAccrued;
      holidaysTaken := 0;
    }

    /** `Staff(name:)`, with the default 14 accrued days. */
    constructor WithDefaultHolidays(name: string)
      ensures this.name == name && holidaysAccrued == DefaultHolidaysAccrued && holidaysTaken == 0
    {
      this.name := name;
      holidaysAccrued := DefaultHolidaysAccrued;
      holidaysTaken := 0;
    }

    /** The getter of the computed property `holidaysRemaining`. */
    function HolidaysRemaining(): (remaining: int)
      reads this
      ensures remaining + holidaysTaken == holidaysAccrued
    {
      holidaysAccrued - holidaysTaken
    }

    /**
      The setter of `holidaysRemaining`: it moves the accrued days and leaves
      the days taken alone, so the getter then returns exactly what was set,
      and setting the value the getter already returns changes nothing.
     */
    method SetHolidaysRemaining(newValue: int)
      modifies this
      ensures HolidaysRemaining() == newValue
      ensures holidaysTaken == old(holidaysTaken)
      ensures newValue == old(HolidaysRemaining()) ==> holidaysAccrued == old(holidaysAccrued)
    {
      holidaysAccrued := holidaysTaken + newValue;
    }

    /** `holidaysTaken += days`, the direct update the example makes. */
    method AddHolidaysTaken(days: int)
      modifies this
      ensures holidaysTaken == old(holidaysTaken) + days
      ensures holidaysAccrued == old(holidaysAccrued)
      ensures HolidaysRemaining() == old(HolidaysRemaining()) - days
    {
      holidaysTaken := holidaysTaken + days;
    }
  }

  /** The worked example: 14 accrued, 4 taken, then 5 remaining leaves 9 accrued. */
  method SkywalkerExample() returns (accrued: int, remaining: int)
    ensures accrued == 9 && remaining == 5
  {
    var skywalker := new Staff("Anakin Skywalker", 14);
    skywalker.AddHolidaysTaken(4);
    skywalker.SetHolidaysRemaining(5);
    accrued, remaining := skywalker.holidaysAccrued, skywalker.HolidaysRemaining();
  }
}
