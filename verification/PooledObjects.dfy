/** The objects of the hand-off: `CEZThreadlet` and `CEZPooledThread`, with the points a worker can be at. */
module PooledObjects {
  const WORD := 0x1_0000_0000

  /** Where a worker stands.  A callback begins in `WCall` and may run for as long as `WLock` lasts. */
  datatype WPC = WWait | WCall | WLock | WTest | WClear | WUnlock | WRelease
  {
    predicate Holding()
    {
      WTest? || WClear? || WUnlock?
    }
  }

  class CEZPooledThread {
    var m_strThreadName: string
    var m_expectedTime: nat
    var m_obj: nat
    var m_asynFunc: nat
    var m_param: int
    var m_semaphore: nat
    var m_nextPooled: CEZPooledThread?
    var m_caller: CEZThreadlet?       // like the job fields, not set by the constructor
    ghost var pc: WPC
    ghost var ticket: nat             // the number of the job posted last

    constructor ()
      ensures m_semaphore == 0 && pc == WWait
    {
      m_strThreadName, m_expectedTime := "Pooled", 0;
      m_semaphore := 0;
      pc := WWait;
    }

    /** When the job counts as late; 0 for never, also when the counter would pass 32 bits. */
    method SetTimeout(milliSeconds: nat, now: nat)
      requires milliSeconds < WORD && now < WORD
      modifies this`m_expectedTime
      ensures m_expectedTime == if milliSeconds > 0 && now + milliSeconds < WORD then now + milliSeconds else 0
    {
      if milliSeconds == 0 {
        m_expectedTime := 0;
      } else {
        m_expectedTime := (now + milliSeconds) % WORD;
        if m_expectedTime < milliSeconds {
          m_expectedTime := 0;
        }
      }
    }
  }

  class CEZThreadlet {
    var m_thread: CEZPooledThread?

    constructor ()
      ensures m_thread == null
    {
      m_thread := null;
    }
  }
}
