/**
 * The preference logic of app/src/main/java/com/easyplan/security/BiometricHelper.kt:
 * a stored "enabled" flag and the uid that enabled it decide whether the app
 * lock applies to the signed-in user.
 *
 * `user` is `Firebase.auth.currentUser?.uid`.
 */
module Biometric {
  import opened Wrappers

  class BiometricPrefs {
    /** `KEY_ENABLED`, read with default `false`. */
    var enabled: bool
    /** `KEY_ENABLED_USER`, absent when removed. */
    var savedUid: Option<string>

    /** Fresh preferences: no key stored. */
    constructor ()
      ensures !enabled && savedUid == None
    {
      enabled := false;
      savedUid := None;
    }

    /** `isEnabledForCurrentUser`. */
    predicate IsEnabledForCurrentUser(user: Option<string>)
      reads this
    {
      enabled && savedUid.Some? && savedUid.value != "" && savedUid == user
    }

    /** `shouldPromptForBiometrics`: a user is signed in and the lock is on for them. */
    predicate ShouldPromptForBiometrics(user: Option<string>)
      reads this
    {
      user.Some? && IsEnabledForCurrentUser(user)
    }

    /** `setEnabled`: switching on records a non-empty uid; switching off forgets it. */
    method SetEnabled(on: bool, user: Option<string>)
      modifies this
      ensures enabled == on
      ensures !on ==> savedUid == None
      ensures on && user.Some? && user.value != "" ==> savedUid == user
      ensures on && (user.None? || user.value == "") ==> savedUid == old(savedUid)
      ensures !on ==> forall u :: !IsEnabledForCurrentUser(u)
      ensures on && user.Some? && user.value != "" ==> IsEnabledForCurrentUser(user)
    {
      enabled := on;
      if on {
        if user.Some? && user.value != "" {
          savedUid := user;
        }
      } else {
        savedUid := None;
      }
    }

    /** Being enabled singles out one signed-in, non-empty uid. */
    lemma EnabledOnlyForSavedUser(user: Option<string>, other: Option<string>)
      requires IsEnabledForCurrentUser(user) && IsEnabledForCurrentUser(other)
      ensures user == other && user.Some? && user.value != ""
    {
    }

    /** Without a signed-in user the lock never prompts, and prompting means enabled. */
    lemma NoPromptWithoutUser(user: Option<string>)
      ensures user.None? ==> !ShouldPromptForBiometrics(user)
      ensures ShouldPromptForBiometrics(user) <==> IsEnabledForCurrentUser(user)
    {
    }
  }
}
